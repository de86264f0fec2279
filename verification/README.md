# Resumable uploads, verified

A model in Dafny of a server for resumable uploads (the tus protocol 1.0.0 and the IETF draft
on resumable uploads), and proofs of what it promises its clients.

A client creates an upload with POST, sends its bytes with PATCH requests at the offset that
HEAD reports, reads it back with GET and removes it with DELETE; a final POST joins finished
uploads. Many clients race on one upload; transfers break off at any byte, are stopped by a hook
or fail inside the store.

## How it is modelled

- `BodyReader.dfy`: the body reader as an object, its `Read` cut into check, read and count, and
  record, and every interleaving of these steps with `closeWithError` and with the store's writes.
- `Lifecycle.dfy`: what one request does to the upload it names, as functions of the request, the
  answers of its environment (`Env`: locker, store, callbacks) and the *slot* of the upload. A
  slot holds the stored upload, the kind of POST that created it, and how many `FinishUpload`
  calls and complete events it had. `Handle` is one request from start to end.
- `Store.dfy`, `Handler.dfy`: an in-memory store that can fail after any byte, a locker, the stop
  registry, and the handlers as methods that change them step by step. Every handler is proved to
  do what `Handle` (for a final upload `FinalOutcome`) says, to touch no other upload, and to
  leave the locks and callbacks of a server that is busy with other requests as they were,
  however it ends.
- `Finals.dfy`: the total of a concatenation, and `FinalOutcome`, a POST that creates a final
  upload, start to end.
- `Steps.dfy`: the same handlers as concurrent processes, cut at every store, locker and callback
  call. A run is any sequence of steps of any requests, of events of their body transfers, and of
  stop triggers. `Invariants.dfy` has what every reachable state keeps.
- `Safety.dfy`, `Serial.dfy`, `Consequences.dfy`, `Resume.dfy`, `Conservation.dfy`: results about
  all runs. `Sizes.dfy`, `Concat.dfy`, `Bounds.dfy`: those that need the code's 64-bit sums to be
  exact.
- `Confluence.dfy`, `Client.dfy`: requests in a row. `Interleaved.dfy` carries them over to runs:
  an upload that nobody has is what its finished requests, served in a row, leave.
- `FinalRuns.dfy`: a final POST between other requests does what `FinalOutcome` says.
  `CompleteEvents.dfy`: how many complete events it sends.
- `Answers.dfy`: every handler as one list of its guards, with the error that each answers.
  `Effects.dfy`: what every request leaves, failed ones included. `Reasons.dfy`, `Honest.dfy`,
  `Creation.dfy`: what that means in runs: why an upload is gone, that answers are true, and that
  HEAD tells what the POST asked for.
- `Limits.dfy`: when an upload's size and MaxSize hold, and when not, for single requests and for
  runs.
- `Strings.dfy`, `Base64.dfy`, `Metadata.dfy`, `UploadConcat.dfy`: the header codecs.
- `Progress.dfy`: the goroutine that sends progress messages.

`dafny verify dfyconfig.toml` checks the project.

## Assumptions

- The locker is exclusive per ID. (The locker of the test suite makes a new lock for every call
  and is not.) A request that waits for a lock may ask its holder to let go, which cancels the
  holder's context: the store may then end `WriteChunk` early, with or without an error, and the
  progress goroutine ends. Both can happen at any time in the model.
- `NewUpload` returns an ID that was never used, and `GetInfo` returns the ID that was looked up.
  Nobody else knows a new ID before its POST returns: a POST reads the info before it takes the
  lock (unrouted.go:159, 189), or takes none. In `Steps.dfy` a POST owns its ID from `NewUpload`
  until it returns.
- Integers are unbounded except where the code adds two of them and the sum matters: offset plus
  Content-Length (unrouted.go:556) and the total of partial uploads (unrouted.go:738) wrap as Go's
  `int64` does. `Limits.SizeCheckIsExact` and `Finals.SizeIsOffsetIff` say exactly when they
  are right. Only the results that turn on sizes assume it: `Sizes.Bounded` says of a set of
  uploads that these sums are exact for their own requests, and that the set has their parts too.
- A store may persist any prefix of what it read and return an error as well; what it reports as
  written is what it persisted. `ConcatUploads` leaves the stored offset at the length of the
  joined bytes: the handler sets the offset of its own copy only (unrouted.go:180), so that the
  size of a final upload is its offset rests on the store. The store, locker and callbacks answer
  each call of a request as `Env` says, for every `Env`.

## Where the code does not do what one would expect

- The size check at unrouted.go:556 lets a chunk through whose offset plus Content-Length is not
  an `int64`: `Limits.OverlongChunk`. The check is exact, and the size holds for every body, if
  and only if the sum is one: `Limits.SizeCheckIsExact`, `Limits.SizeHoldsIff`.
- A positive Content-Length takes a deferred upload past MaxSize: `Limits.MaxSizeHoldsIff` says
  when. No length can be declared any more then, and the upload is never completed:
  `Limits.CompletableIff`, `Limits.NeverCompleted`.
- The total of a concatenation can wrap to a negative number: `Finals.OverflowSlipsThrough` is a
  final POST that succeeds so under any MaxSize. The size it leaves is its offset if and only if
  the sum is an `int64`: `Finals.SizeIsOffsetIff`.
- The Upload-Concat header that HEAD prints does not parse back when the base path occurs earlier
  in the printed URL: for a single segment, when it is also the host's name
  (`UploadConcat.OneSegment`), for the base path `/` (`UploadConcat.RootIsAmbiguous`), and for an
  empty one. `UploadConcat.RoundTrip` says if and only if, for every configured base path.
- A metadata map survives the header if and only if every key is free of spaces and commas, not
  empty, does not start with white space, and does not end with it when its value is empty:
  `Metadata.RoundTrip`.
- A final upload of total size zero sends its complete event twice:
  `Finals.EmptyFinalCompletesTwice`, and with complete events on exactly then:
  `Finals.FinalEvents`, in every run `CompleteEvents.FinalCompletes`.
- A draft POST checks neither MaxSize nor the sign of Upload-Length: `Limits.DraftsIgnoreMaxSize`.
  `Limits.DraftSizeIff` says exactly when it leaves a size beyond them. So `Bounds.SizeInvariant`
  has MaxSize for v1 uploads only, and for drafts that a known size bounds the offset.

## Model

| member | source | states |
|---|---|---|
| Base64.DecodeEncode | unrouted.go:863-881 | decoding gives back what was encoded, for byte strings of every length modulo three |
| Base64.DecodesIff | unrouted.go:861-865 | text is decoded if and only if it is groups of four digits, the last with at most two paddings, and to as many bytes as they hold |
| Base64.DigitsInOrder | unrouted.go:861-881 | the digits are the alphabet of RFC 4648 in its order, and each is read from its own character only |
| Metadata.ParseMetadataHeader | unrouted.go:847-870 | the loop over the elements computes `Parse`: the last of several entries for a key wins, bad elements are skipped |
| Metadata.BareKey | unrouted.go:850-868 | an element without a space inside is a key with an empty value, or skipped if it is empty |
| Metadata.KeyAndValue | unrouted.go:850-868 | one with a single space is that key and the decoded value, or skipped if there is no key or the value cannot be decoded |
| Metadata.TooManySpaces | unrouted.go:850-868 | one with more spaces is skipped |
| Metadata.LastWins | unrouted.go:868-868 | a key is there if and only if some element gives it, with the value of the last one that does |
| Metadata.SerializeMetadataHeader | unrouted.go:872-884 | the loop over the map, in whatever order, builds the comma-separated list of its elements |
| Metadata.ParsedIsExpressible | unrouted.go:850-868 | whatever the parser accepts is an entry that the header syntax can carry |
| Metadata.ParseElementOfElement | unrouted.go:850-881 | one entry survives being written and read, with a value or without |
| Metadata.RoundTrip | unrouted.go:847-884 | parsing a serialised map, in any iteration order, returns it if and only if all its entries are expressible |
| Metadata.NormalForm | unrouted.go:847-884 | parse(serialise(parse(h))) = parse(h) for every header h whatsoever |
| UploadConcat.ParseConcatHeader | unrouted.go:886-911 | the loop over the URLs returns the identifiers in order, or the error of the first URL without one |
| UploadConcat.FormOfHeader | unrouted.go:886-911 | exactly which headers ask for a partial upload, for a final one, are in error and with which error |
| UploadConcat.ExtractedID | unrouted.go:913-919 | the identifier is what follows the first base path, without the slashes at its ends |
| UploadConcat.PrintFinal | unrouted.go:270-277 | the loop over the parts prints their URLs, separated by single spaces, behind `final;` |
| UploadConcat.URLNamesHost | unrouted.go:690-700 | a URL under a relative base path is that path on the request's host, by https exactly if the request came by https |
| UploadConcat.FirstOccurrence | unrouted.go:690-700 | where the first occurrence of any base path in a printed URL is: in its place, or at one of the two slashes before the host |
| UploadConcat.ExtractPrinted | unrouted.go:913-919 | a printed URL always gives back an identifier, and the right one if and only if the base path does not occur before its place |
| UploadConcat.RoundTrip | unrouted.go:886-919 | for every configured base path, parsing the printed final header returns the same identifiers in order if and only if the base path is unambiguous |
| UploadConcat.OneSegment | unrouted.go:690-700 | a base path of one segment is unambiguous if and only if the segment is not the host |
| BodyReaders.BodyReader.constructor | body_reader.go:20-27 | a new reader has counted nothing, has no error and may read up to the cap |
| BodyReaders.BodyReader.HasErrored | body_reader.go:30-35 | the first step of Read: is an error recorded |
| BodyReaders.BodyReader.ReadAndCount | body_reader.go:37-38 | the second step: the bytes come off the capped stream and are counted |
| BodyReaders.BodyReader.RecordFailure | body_reader.go:40-58 | the third step: a failure is categorised and recorded unless another cause is there already |
| BodyReaders.Categories | body_reader.go:46-51 | which failure gets which category, and that none looks like a stop or an end of file |
| BodyReaders.BodyReader.Read | body_reader.go:29-61 | the three steps in a row: (0, EOF) after a recorded error, a failing read's bytes without its error |
| BodyReaders.ReadOnceIsThreeSteps | body_reader.go:29-61 | Read is what the interleaving model does when nobody comes in between |
| BodyReaders.BodyReader.Error | body_reader.go:63-71 | the recorded cause, an end of file counting as none |
| BodyReaders.BodyReader.BytesRead | body_reader.go:73-75 | the counter |
| BodyReaders.BodyReader.CloseWithError | body_reader.go:77-82 | the cause replaces whatever was recorded |
| BodyReaders.BodyTransfer.Play | body_reader.go:29-82 | each step of a transfer, run on the reader object, is the step of the interleaving model |
| BodyReaders.ReadOnceConserves | body_reader.go:29-61 | a Read takes its bytes off the front of what is still owed and leaves the rest and the final outcome as they were |
| BodyReaders.ReadAll | handler_test.go:545-549 | reading on to the end, with any buffer sizes, returns exactly what the reader had to give and leaves the cause of the end |
| BodyReaders.WriteRunInv | body_reader.go:29-82 | what every interleaving keeps: bytes delivered are a prefix of the capped stream, the counter counts them, nothing owed is lost |
| BodyReaders.Delivery | body_reader.go:20-75 | without a stop the store gets a prefix of the stream up to its first failing read, cut at the cap; at the end of file all of it, and hasError is that failing read and never the plain end or the cap |
| BodyReaders.NothingAfterError | body_reader.go:29-61 | once a cause is recorded only a Read already past its check delivers anything |
| BodyReaders.StopSticks | body_reader.go:40-58 | no concurrent read failure replaces the stop |
| BodyReaders.StoppedIff | body_reader.go:63-82 | hasError reports a stop if and only if there was one, whatever fails |
| BodyReaders.StopTheorem | body_reader.go:29-82 | after closeWithError(stop) at most one in-flight Read delivers bytes and hasError reports the stop, in every continuation |
| Lifecycle.ValidateNewUploadLength | unrouted.go:921-946 | a length is accepted exactly when it is stated and not negative without deferral, or deferred where that is supported without being stated |
| Lifecycle.GetDraftUploadLength | draft.go:54-90 | the length is rejected exactly when it is malformed or contradicts the Content-Length of a complete request, and deferred exactly when neither is known |
| Lifecycle.StoredTwice | handler_test.go:529-559 | a chunk written again at its offset replaces what was written of it before |
| Stores.Locker.Lock | unrouted.go:703-719 | the lock is had exactly when nobody holds it and the locker does not fail; then it is held; a lock that stays held times out |
| Stores.StopRegistry.RegisterStopCallback | hooks.go:263-265 | the callback for the ID is the given reader's, the others stay |
| Stores.StopRegistry.UnregisterStopCallback | hooks.go:268-270 | the callback of the ID is gone, the others stay |
| Stores.StopRegistry.TriggerStopUpload | hooks.go:273-279 | the reader registered for the ID is closed with the stop, and no other reader is touched |
| Stores.MemStore.NewUpload | handler_test.go:498-510 | an empty upload with the given info, or nothing and an error |
| Stores.MemStore.WriteChunk | handler_test.go:529-559 | whatever the interleaving of reads, stops and persisted pieces, the upload ends with the persisted bytes at the offset and the offset behind them, error or not |
| Stores.MemStore.ConcatUploads | unrouted.go:176-179 | the bytes of the first parts, in order, up to the one at which the store fails |
| Stores.MemStore.Terminate | handler_test.go:585-590 | the upload is gone, or nothing has changed |
| Finals.PartSizesIff | unrouted.go:722-742 | a total exists exactly when every named upload exists and is finished |
| Finals.PartSizesAt | unrouted.go:722-742 | it is made of the parts' sizes in the order of the header |
| Handlers.UnroutedHandler.SizeOfUploads | unrouted.go:722-742 | the loop returns the 64-bit total, or the error of the first part that is missing or unfinished or cannot be read |
| Handlers.UnroutedHandler.EmitFinishEvents | unrouted.go:642-654 | a complete event is sent unless the callback objects or events are off |
| Handlers.UnroutedHandler.FinishUploadIfComplete | unrouted.go:626-639 | FinishUpload is called exactly when the info is complete, and the event follows only its success |
| Handlers.UnroutedHandler.ReceiveBody | unrouted.go:579-609 | from registering the callback to terminating a stopped upload: what is stored, which error wins, how many bytes count |
| Handlers.UnroutedHandler.WriteChunk | unrouted.go:545-623 | size check, cap, transfer and finish on the slot, for every transfer; the callback is removed on every path and the others stay |
| Handlers.UnroutedHandler.HeadFile | unrouted.go:214-290 | on a server that may be busy with any uploads, this one too: does what Handle says, changes nothing, leaves all locks as they were on every path |
| Handlers.UnroutedHandler.GetFile | unrouted.go:396-447 | on a server that may be busy with any uploads, this one too: does what Handle says, changes nothing, leaves all locks as they were on every path |
| Handlers.UnroutedHandler.DelFile | unrouted.go:454-508 | on a busy server: does what Handle says to its upload and nothing to others, leaves all locks as they were on every path |
| Handlers.UnroutedHandler.PatchFile | unrouted.go:297-389 | on a busy server: does what Handle says to its upload for every transfer and nothing to others, leaves all locks and callbacks as they were on every path |
| Handlers.UnroutedHandler.CreateUpload | unrouted.go:136-162 | an upload exists exactly when the callback agrees, the ID it asks for is valid and the store agrees, even if reading it back fails |
| Handlers.UnroutedHandler.PostFile | unrouted.go:68-207 | on a busy server: does what Handle says, or FinalOutcome for a final upload, leaves all locks and callbacks as they were on every path |
| Handlers.UnroutedHandler.PostFinal | unrouted.go:96-104 | a final POST does what FinalOutcome says and nothing to its parts |
| Handlers.UnroutedHandler.PostFileV2 | draft.go:115-248 | on a busy server: does what Handle says, leaves all locks and callbacks as they were on every path |
| Handlers.UnroutedHandler.DeclareAtEnd | draft.go:221-240 | the length of a deferred upload marked complete becomes its offset, and it is finished |
| Answers.HeadAnswers | unrouted.go:214-290 | the guards of HEAD in their order, and each field of its answer: no length exactly for a deferred upload, partial for a partial one |
| Answers.GetAnswers | unrouted.go:396-447 | the guards of GET in their order, with the error each answers |
| Answers.DeleteAnswers | unrouted.go:454-508 | the guards of DELETE in their order, with the error each answers |
| Answers.PatchAnswers | unrouted.go:297-389 | the guards of PATCH in their order, from the headers to the callbacks after FinishUpload, with the error each answers; success answers the offset behind the persisted bytes |
| Answers.V1PostAnswers | unrouted.go:68-207 | the guards of a v1 POST in their order, with the error each answers |
| Answers.DraftPostAnswers | draft.go:115-248 | the guards of a draft POST in their order, with the error each answers |
| Effects.PatchEffect | unrouted.go:297-389 | what a PATCH leaves, failed ones included: a length it got to declare even if the body is refused, the persisted bytes, no upload exactly if it was stopped and the server removes it, one FinishUpload call exactly if it reached a known size |
| Effects.V1PostEffect | unrouted.go:68-207 | what a plain v1 POST leaves, failed ones included |
| Effects.DraftPostEffect | draft.go:115-248 | what a draft POST leaves, failed ones included, and when it declares the length at its end |
| Effects.GoneIff | unrouted.go:595-609 | a request removes an upload if and only if it is a successful DELETE or a stopped write on a server that terminates; broken bodies and failing stores keep it |
| Effects.AnswersAreHonest | unrouted.go:611-639 | a successful answer names the offset of the upload it leaves; a failing FinishUpload, or callback behind it, is answered with an error and sends no complete event |
| Finals.FinalOutcomeJoins | unrouted.go:175-204 | a final POST that succeeds leaves the parts' bytes in header order, their 64-bit total, and one FinishUpload call only for size zero |
| Finals.FinalAnswers | unrouted.go:96-204 | with finished parts and no failure a final POST succeeds, unless its 64-bit total exceeds MaxSize |
| Effects.PartSizesError | unrouted.go:722-742 | without a total the error is that of the first part that cannot be read, is missing or is unfinished, in this order |
| Effects.FinalPostAnswers | unrouted.go:68-207 | the guards of a final POST in their order, with the error each answers |
| Effects.FinalPostEffect | unrouted.go:96-204 | what a final POST leaves, whatever it answers: parts joined so far, size, FinishUpload calls and complete events |
| Finals.TotalIsExact | unrouted.go:738-738 | the total is the sum of the sizes if and only if that sum is an int64 |
| Finals.SizeIsOffsetIff | unrouted.go:175-204 | the offset that a successful final POST leaves is the sum of the sizes, and the size is that offset if and only if the sum is an int64 |
| Finals.OverflowSlipsThrough | unrouted.go:96-204 | a concrete POST over two finished parts that succeeds under any MaxSize and leaves a negative size |
| Finals.FinalEvents | unrouted.go:175-204 | a final POST that succeeds sends no complete event if they are off, two if the size is zero and one otherwise |
| Finals.EmptyFinalCompletesTwice | unrouted.go:175-204 | a concrete POST over one empty finished part that succeeds and sends two |
| Confluence.PatchWritesIff | unrouted.go:297-381 | exactly which PATCH requests get to write |
| Confluence.HeadPredictsPatch | unrouted.go:214-381 | HEAD's offset, length and final parts tell which PATCH will be written; the draft's flag says that length and offset agree |
| Confluence.DeleteRemovesIff | unrouted.go:454-508 | exactly when a DELETE removes the upload; otherwise it answers an error and changes nothing |
| Confluence.GetServesIff | unrouted.go:396-447 | exactly when a GET serves the upload's bytes, and when it has none to serve |
| Confluence.V1CreationIff | unrouted.go:81-116 | exactly which v1 POST requests create what |
| Confluence.DraftCreationIff | draft.go:54-148 | exactly which draft POST requests create what; neither MaxSize nor the sign of the length matters |
| Confluence.WriteKeepsItsBytes | unrouted.go:590-623 | whatever a write answers, the persisted bytes follow the old ones and the next HEAD reports them, unless the write was stopped and the server removes the upload |
| Confluence.PatchDelivers | unrouted.go:344-389 | a PATCH that delivers a chunk in full moves the upload on by it, and finishes it exactly when it is then complete |
| Confluence.PatchesDeliver | unrouted.go:344-389 | so do PATCHes in a row for every split of the rest of a body, with the length declared by any one of them |
| Confluence.Confluent | unrouted.go:92-639 | every full delivery (POST with or without a first chunk, known or deferred length, any split, any declaring PATCH; one draft POST with or without lengths) ends with the same bytes, size and offset and one FinishUpload call |
| Interleaved.InARow | unrouted.go:214-508 | in every reachable state an upload nobody has is what its finished requests leave when served one after the other |
| Interleaved.EffectiveServes | unrouted.go:214-508 | requests that change nothing at their turn can be left out of a row |
| Interleaved.LeavesAlone | unrouted.go:214-508 | HEAD, GET, a DELETE exactly when it does not succeed, and a PATCH that neither writes nor declares change nothing |
| Interleaved.DeliveredInterleaved | unrouted.go:92-639 | so a full delivery in the middle of an interleaved run, with any requests that change nothing in between, ends with the body, finished once |
| Reasons.GoneIffRemoved | unrouted.go:454-609 | in every reachable state an upload that was made, and that nobody has, is gone if and only if a DELETE for it succeeded or a stopped request could remove it |
| Honest.AnswersHold | unrouted.go:611-639 | in every run each finished request has answered the offset it left, and an error if its FinishUpload call failed |
| Honest.NextHeadAgrees | unrouted.go:214-389 | in every run the next HEAD reports the offset that a PATCH, POST or HEAD before it answered |
| Honest.EventsNeedFinish | unrouted.go:626-654 | in every run the complete event of an upload is sent exactly if the one FinishUpload call and the callback behind it succeeded, and otherwise their request answered an error |
| Creation.HeadTellsCreation | unrouted.go:266-287 | in every run HEAD tells what the POST asked for: partial exactly for that header, the parts of a final one, the stated length; no length exactly while it is deferred |
| Invariants.TransferOk | unrouted.go:590-593 | each event of a body transfer only extends the stored bytes and keeps the write's and the slot's invariants |
| Invariants.MicroOk | unrouted.go:214-508 | each step of a handler keeps the slot's invariants and moves the slot forward |
| Invariants.NextInv | unrouted.go:214-508 | every event of a run keeps exclusive ownership, the registry's agreement and all slots' invariants, and moves every slot forward |
| Sizes.KeptFitsEvery | unrouted.go:556-570 | with the cap that writeChunk chooses, persisted bytes never exceed a known size, also for a body of unknown length |
| Sizes.MoveWithin | unrouted.go:344-593 | every event but a join keeps the offset within a known size and leaves a complete upload as it is |
| Bounds.SizeInvariant | unrouted.go:114-116 | in every reachable state the offset counts the stored bytes; every known v1 size, also of final uploads whose concatenation is under way or has failed, respects MaxSize and bounds the offset; a known draft size bounds the offset too |
| Bounds.FinishedOnce | unrouted.go:611-639 | in every run FinishUpload is called at most once per ID, on a declared size equal to the offset, for final uploads too; never more than one complete event, or two for a final upload of size zero |
| Bounds.CompleteForGood | unrouted.go:344-381 | from a reachable state in which an upload is complete on, nothing changes it but its removal |
| Limits.SizeCheckIsExact | unrouted.go:555-558 | the 64-bit size check agrees with the exact one if and only if the sum is an int64 |
| Limits.OverlongChunk | unrouted.go:555-570 | a concrete chunk past that bound leaves an upload longer than its size |
| Limits.SizeHoldsIff | unrouted.go:555-593 | PATCHes with a Content-Length keep the upload within its known size, for every body, if and only if offset and Content-Length add up to an int64 |
| Limits.MaxSizeHoldsIff | unrouted.go:560-570 | they keep a deferred upload within MaxSize, for every body, if and only if offset plus Content-Length is |
| Limits.CompletableIff | unrouted.go:363-381 | some PATCH completes a deferred upload if and only if its offset is within MaxSize |
| Limits.NeverCompleted | unrouted.go:363-381 | in every continuation of a run a deferred upload past MaxSize, whose draft POST has returned, stays deferred and unfinished as long as it is there |
| Limits.DraftSizeIff | draft.go:54-240 | a draft POST that succeeds leaves a size above MaxSize, or a negative one, if and only if it stated one |
| Limits.DraftsIgnoreMaxSize | draft.go:115-248 | concrete draft POSTs that state any length from minus one on and succeed under any MaxSize |
| Safety.ForwardOnly | unrouted.go:344-381 | between a reachable state and any later one bytes and offset only grow, and the length is declared at most once and then fixed |
| Safety.FinalIsFrozen | unrouted.go:339-342 | once its POST has returned only termination changes a final upload, even one whose concatenation failed part-way |
| Safety.StopRegistry | unrouted.go:587-588 | in every reachable state a callback is registered for an ID exactly while the one request is between register and unregister for it |
| Safety.StopReachesItsReader | hooks.go:273-279 | in every reachable state a trigger closes the registered request's own reader and changes no other request |
| Serial.TracksBefore | unrouted.go:214-388 | at every step before the body is read, what is done and what remains make up Handle |
| Serial.TracksTransfer | unrouted.go:590-593 | so they do at every event of the transfer |
| Serial.TracksAfter | unrouted.go:602-639 | and at every step after it |
| Serial.Serializable | unrouted.go:214-508 | in every interleaved run the store is what handling the requests one at a time in the order they got their IDs leaves, and HEAD, GET, PATCH, DELETE and plain POST requests have answered accordingly; a request that never got its ID answers an error and changes nothing |
| FinalRuns.FinalServed | unrouted.go:96-204 | in every run a final POST that got its ID has answered and left what FinalOutcome says of its parts, if they are all there |
| FinalRuns.FinalSerializable | unrouted.go:96-204 | and so it has of the store that handling its predecessors one at a time leaves, when nobody has its parts |
| CompleteEvents.FinalCompletes | unrouted.go:175-204 | in every run a final POST that answered success has sent two complete events if and only if they are on and the size is zero, and its upload stays so as long as it is there |
| Consequences.StopFails | unrouted.go:595-609 | a write stopped before hasError is sampled answers an error and, with a terminater, removes the upload |
| Consequences.StoppedRequestsFail | unrouted.go:595-623 | in every run, every finished request whose transfer was stopped has answered an error, and its upload is gone if it could be terminated |
| Consequences.TerminationIsFinal | unrouted.go:467-501 | once an upload is gone, no continuation of the run changes its slot, and whoever gets the ID later answers an error |
| Consequences.DeletedForGood | unrouted.go:454-508 | in every run this holds from the step of a successful DELETE on, for requests waiting then and for later ones |
| Consequences.HandleAdvances | unrouted.go:326-349 | handling a request leaves its slot beyond the bytes it added |
| Consequences.OnePatchPerOffset | unrouted.go:326-388 | of several PATCHes with the same Upload-Offset at most one adds bytes in any run; later ones answer an error, the mismatched offset if nothing else is wrong |
| Resume.TransferKeepsPrefix | unrouted.go:590-593 | a transfer of the file's suffix writes the file's own bytes in their place, at every event |
| Resume.Resumable | unrouted.go:243-349 | if every body is the file from the declared offset on, cut short or not, the store holds the file up to the offset in every reachable state, all of it when complete, and HEAD and GET have answered what it held when they got the lock |
| Conservation.HandleAdds | unrouted.go:297-389 | handling a request moves the offset by exactly the bytes it added |
| Conservation.EveryByteOnce | unrouted.go:297-389 | in every reachable state the offset of an upload nobody has is the sum of the bytes its requests persisted, failed ones included; so at most Size PATCHes make progress, for drafts too |
| Concat.MoveStaysComplete | unrouted.go:731-735 | no event changes a complete upload other than by removing it, final ones under concatenation included |
| Concat.JoinKeeps | unrouted.go:176-179 | each join puts one more part in its place |
| Concat.Concatenated | unrouted.go:175-204 | in every run, after a successful final POST the upload names the header's parts, its size is its offset within MaxSize, and its bytes are the parts' bytes in order as long as none is deleted |
| Concat.HeadPrintsParts | unrouted.go:270-277 | what HEAD then prints parses back into the list that the POST's header was parsed into, if and only if the base path is unambiguous |
| Progress.MessagesAreSamples | unrouted.go:668-686 | every message was sampled at a tick or at the end of the context, and nothing else ends the goroutine |
| Progress.ProgressMessages | unrouted.go:663-687 | messages are strictly increasing under every interleaving, each is the offset plus the counter at its moment, none exceeds offset plus cap, the last is the value when the context ended |
| Progress.TickSends | unrouted.go:678-684 | every tick before the end sends the value of its moment, unless it was the last one sent |
| Progress.TransferSendsNothing | unrouted.go:663-687 | reads, stops and persisted pieces send nothing |
| Progress.SendProgressMessages | unrouted.go:663-687 | the loop, run beside a transfer object, sends exactly those messages |
| Client.PatchResumes | unrouted.go:344-389 | a PATCH from the right offset leaves more of the file, the same, or no upload, whatever fails |
| Client.ProgressIff | unrouted.go:214-389 | exactly which attempts of a client persist something |
| Client.EnoughAttempts | unrouted.go:214-389 | unless the upload is terminated, the file is complete once as many attempts have persisted something as bytes were missing, and it is a part of the file before |
| Client.ClientFinishes | unrouted.go:214-447 | if each PATCH persists at least one byte, at most as many attempts as missing bytes complete the upload, and GET returns the file |
| Client.Resume | unrouted.go:214-447 | the loop leaves what its attempts make of the upload, and GET then returns the whole file if each PATCH persists at least one byte and there are as many attempts as bytes missing |

## Left out

- HTTP plumbing, CORS, version and method-override middleware, response headers other than those above, logging, metrics and hook transports.
- Real stores and lockers, the wall clock (lock timeout, tick interval, grace period) and the parsing of URLs, media types and numbers; a refused lock, a tick and the end of a context are events that may happen at any time.
- `MergeWith` of responses, and that every stop shares one global error value.
- Whether a header is present or malformed is part of a request (`Header`); so are the media type check and the draft's completeness flag, which depend on the draft's version.
- `info.MetaData` in the handlers: the metadata header is modelled by its codec only.
- Base paths and hosts with white space, hosts with slashes, and text that is not valid UTF-8.
- The handlers' concurrency is modelled on values, in `Steps.dfy`; the methods of `Handler.dfy` handle one request at a time. What joins them is `Lifecycle.Handle`.
- Handlers.UnroutedHandler.CreateUpload: does not model the metadata and storage that a PreUploadCreateCallback may substitute; an invalid identifier that it asks for is refused, and a valid one is the identifier of the request.
- Serial.Serializable: takes over from the run what a final POST left, because it reads its parts without their locks; its answer and what it leaves are stated by `FinalRuns.FinalServed` and `FinalRuns.FinalSerializable`, for parts that are not deleted and where `Sizes.Bounded` holds.
- Stores.Locker.Lock: waiting is not a step of its own in the handlers; a lock that is held when it is asked for times out. Requests that wait and get the lock once its holder has released it are in `Steps.dfy`.
- Bounds.FinishedOnce: bounds the complete events; `CompleteEvents.FinalCompletes` says how many a final upload has.
- Bounds.SizeInvariant: bounds the offset by the size only where `Sizes.Bounded` holds; `Limits.OverlongChunk` shows that it fails otherwise.
- Concat.Concatenated: assumes `Sizes.Bounded` of the upload, its parts, the parts of final ones among them, and so on; `Finals.OverflowSlipsThrough` shows what happens otherwise.
- Consequences.StoppedRequestsFail: a stop that arrives after hasError was sampled is not part of the transfer and has no effect, as in the code.

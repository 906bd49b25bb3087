# WeCom AI-bot client: a verified model

A Dafny model of the Go library that connects a robot to WeCom: the streaming decryptor of media files, the
correlation of acknowledgements with requests, the life of the long connection, the encrypted callback envelope,
chunked uploads, and the text forms these use. What Go does step by step on shared arrays, fields and channels is
imperative here and proved against functions on plain values; what several goroutines do at once is a state machine
whose steps are single critical sections, channel operations and returns.

`dafny verify dfyconfig.toml` checks everything.

## The parts

**Streaming decryptor** (`Bytes`, `Cbc`, `Padding`, `StreamSpec`, `DecryptStream`, `Media`). The source of ciphertext
is an arbitrary function from read numbers to reads: any bytes, possibly none, with `nil`, `io.EOF` or another error
beside them. `StreamSpec` says on whole strings what a stream amounts to: decrypt everything, then remove the padding.
`DecryptStream.DecryptReader` has the fields and the four preallocated buffers of `decryptReader`; `data` of a round
lies in the array of `carry` and `all` in the array of `hold`, as after Go's `append` within capacity. `Valid` is the
invariant between calls. AES is any family of permutations of 16-byte blocks; CBC is defined over it as in section 6.2
of NIST SP 800-38A, the padding as in section 6.3 of RFC 5652 with blocks of 32 bytes.

**Ack protocol** (`AckLane`, `AckInvariant`, `AckOrder`, `AckAnswers`, `AckProtocol`, `AckLimits`, `AckDrain`, `AckCalls`). Everything
`SendAndWait` and its worker do is keyed by req_id, so the protocol is a product of lanes, one for each req_id. A lane
holds the calls, the queue, the worker, the writer goroutines, the entry of `pendingAcks`, and the read loops that have
taken a channel out of it but not yet put the ack in. Frames may also be sent past the queue, by `Send` under the same
req_id, at any moment. Every ready branch of every `select` is a step, so timeouts and cancellations fall anywhere.
An ack knows which frame the server answers with it; the client never looks at that.

**Connection life cycle** (`Backoff`, `ClientCore`, `Lifecycle`, `LifecycleInvariants`, `LifecycleRuns`,
`LifecycleTheorems`, `LifecycleProgress`, `LifecycleRestart`). One client, any number of calls of `Run` and
`RunForever`, one at a time; dialling, frames, ticks, cancellation and lane steps come in any order, and read and
heartbeat loops of finished runs may linger. The state carries its own history: callbacks made, subscriptions confirmed,
heartbeats, waits, starts. `LifecycleProgress` says where the calling goroutine can be held up, and where it gets to
otherwise.

**Client object** (`ClientObject`). The class with the fields under `mu`; each of its methods is one critical section
or channel operation, changes the maps as stated, and takes the object from representing a lane to representing that
lane after the corresponding step.

**Callbacks** (`Base64`, `Signature`, `Envelope`, `Callbacks`). Layout, sealing and opening of the envelope, keys,
signatures, and the encrypted webhook from request to reply. Base64 is that of section 4 of RFC 4648 as Go's
`StdEncoding` reads it: line breaks are skipped and the unused bits of a last quantum are not looked at.

**Uploads and numbers** (`Upload`, `Integers`, `Decimal`, `Strings`, `Timestamp`).

## Where the code and its description differ

- The recorded connection state is not always "disconnected" at a backoff wait: a call of `RunForever` cancelled while connected leaves the record as it is (client.go:302-306), and a
  later call whose dial fails returns before the deferred transition is set up, so it waits with the record still
  "connected". `LifecycleTheorems.BackoffRecordedState` gives the exact condition, `LifecycleRestart` such a run.
- The doubling in `reconnectDelay` overflows for reconnect intervals of 2^62 ns and more: the second wait is negative.
  `Backoff.DelayAsIntended` is the exact bound.
- The first wait of the backoff is not capped: with an interval above 30 s the waits shrink after the first
  (client.go:600-607). `Backoff.DelayCapped` is the exact condition.
- The ack that `SendAndWait` returns is not always the one for its own frame. From any orderly point on it is, while no
  request gives up waiting and no frame of the req_id is sent past the queue (`AckAttribution`; sends that fail do no
  harm). At an idle point, with nothing more sent past the queue, the next request can be given a stray ack exactly if
  some frame on the wire, direct ones included, has not been answered or is still being written
  (`AckLimits.AckCanStray`); `AckLimits.LateAckIsMisattributed` is such a run after a timeout. `README.md:152-159` of the
  library sends the parts of a stream with `Send` and then with `SendAndWait` under one req_id: that can hand the ack of
  the first to the second although nobody gives up (`AckLimits.DirectAckIsMisattributed`), and from every idle point
  (`AckLimits.DirectSendStrays`).
- Frames of `SendAndWait` do not always go out in the order of the calls. Those whose send was not abandoned do
  (`WireOrder`). At an idle point with the wire in order it can get out of order without a further abandoned send exactly
  if an abandoned frame is still being written (`AckLimits.OrderCanBreak`); `AckLimits.AbandonedSendIsOvertaken` is such
  a run. Frames sent past the queue have no place in this order.
- The length field of the envelope is the message length modulo 2^32 (wecom_crypto.go:117); `Envelope.OpenOfSeal` says
  what longer messages come back as.
- `pkcs7Pad` accepts block sizes of 256 and more, for which the pad byte wraps around; `Padding.UnpadInvertsPad` is the
  exact bound. The library itself uses 32.

## Model

| member | source | states |
|---|---|---|
| Cbc.DecryptConcat | mediastream.go:100-101 | decrypting two aligned pieces one after the other, carrying the chaining value over, is decrypting them together |
| Cbc.DecryptInvertsEncrypt | wecom_crypto.go:125-126 | CBC decryption gives back every aligned plaintext, for every block permutation |
| Cbc.EncryptInvertsDecrypt | wecom_crypto.go:80-81 | and encryption every aligned ciphertext: decryption is injective and loses nothing |
| Cbc.DecryptedBlock | mediastream.go:168 | every plaintext block is its ciphertext block decrypted, exclusive or the ciphertext block before it, or the initial value: the equation of NIST SP 800-38A |
| Cbc.EncryptedBlock | wecom_crypto.go:125-126 | and every ciphertext block encrypts its plaintext block exclusive or the ciphertext block before it |
| Bytes.XorBlockBits | mediastream.go:168 | the exclusive or of two blocks, bit by bit |
| Cbc.Decrypter.CryptBlocks | mediastream.go:168 | decrypts a prefix of an array in place block by block; the result is the CBC function of the input, the chaining value survives for the next call, the rest of the array is untouched |
| Cbc.Encrypter.CryptBlocks | wecom_crypto.go:125-126 | the same for encryption |
| Padding.Pkcs7Pad | wecom_crypto.go:153-162 | appends the padding |
| Padding.Pkcs7Unpad | wecom_crypto.go:164-178 | the index loop accepts and rejects as the specification does, with the same error |
| Padding.UnpadAccepts | wecom_crypto.go:164-178 | a string is accepted with contents d exactly if it is d followed by p copies of p for some p from 1 to the block size |
| Padding.UnpadRejects | wecom_crypto.go:164-178 | which of the three errors every other string gives |
| Padding.UnpadInvertsPad | wecom_crypto.go:153-178 | unpadding undoes padding for all data exactly when the padding length fits into a byte |
| Padding.PadInvertsUnpad | wecom_crypto.go:153-178 | padding is canonical: every accepted string of full length is the padding of its contents |
| Padding.PadAligned | wecom_crypto.go:120-126 | padding to 32 makes a whole number of AES blocks, as CryptBlocks demands |
| Padding.UnpadTail | media.go:84-101 | looking only at the last min(32, n) bytes decides the same, fails with the same error and removes the same bytes |
| StreamSpec.InStepAdvance | mediastream.go:158-181 | one round keeps the values in step with the ciphertext: released and held plaintext are the decryption of all whole blocks so far, carry is the rest, 32 bytes are held back |
| StreamSpec.RoundConserves | mediastream.go:158-181 | a round neither loses nor invents a byte |
| StreamSpec.InStepReleased | mediastream.go:170-176 | what has been released is exactly what may be given out without knowing whether the ciphertext goes on |
| StreamSpec.ReleasedIsSafe | mediastream.go:170-176 | what is released stays a prefix of whatever is released or returned later, however the ciphertext goes on, and all but 32 bytes of whole blocks is released |
| StreamSpec.FinishAgrees | mediastream.go:192-205 | finishing from carry and hold alone gives the result or the error of decrypting and unpadding the whole |
| StreamSpec.EncryptedStreamResult | mediastream.go:86-101 | the stream of an encrypted padded file amounts to the file, for every split into reads |
| StreamSpec.AcceptedCiphertexts | mediastream.go:192-205 | a ciphertext yields d exactly if it is the encryption of d followed by p copies of some p up to 32 |
| StreamSpec.RejectedCiphertexts | mediastream.go:192-205 | the error for every other ciphertext: the bytes beyond whole blocks, or that of the padding |
| DecryptStream.Source.Read | mediastream.go:159 | a read fills the buffer with what the script gives next, with its error |
| DecryptStream.DecryptReader.constructor | mediastream.go:133-141 | buffers of one round and fresh, nothing delivered, invariant established |
| DecryptStream.DecryptReader.AppendToCarry | mediastream.go:161 | the data of the round is built in the array of carry and fits its capacity |
| DecryptStream.DecryptReader.KeepTail | mediastream.go:169-176 | all but the last 32 gathered bytes are released, those move to the front of the same array |
| DecryptStream.DecryptReader.CompactCarry | mediastream.go:180 | the residue moves to the front of the array that held the ciphertext |
| DecryptStream.DecryptReader.RunRound | mediastream.go:160-181 | on the shared arrays the round does to the buffers what the value-level round says: decrypting comes before compacting, nothing is clobbered |
| DecryptStream.DecryptReader.Absorb | mediastream.go:160-181 | after n more bytes the buffers are in step with the longer ciphertext, out grows by at most one chunk, no byte is lost |
| DecryptStream.DecryptReader.Finish | mediastream.go:192-205 | ends the stream with what decrypting the whole ciphertext gives: its plaintext or its error; on an error nothing more is released |
| DecryptStream.DecryptReader.Fill | mediastream.go:158-188 | one read of the source, invariant kept; without an error the stream goes on, with io.EOF it ends with what decrypting and unpadding everything read gives, with any other error it ends with that error |
| DecryptStream.DecryptReader.FillUntilReady | mediastream.go:145-153 | the loop ends, for every source with finitely many empty reads, with plaintext ready or the stream ended |
| DecryptStream.DecryptReader.Read | mediastream.go:144-155 | delivers the next bytes of the plaintext; reports the end only after everything released has been delivered; errors and EOF stay, and the source is not read again after them |
| DecryptStream.ReadAll | media.go:36-36 | for every split of the ciphertext into reads and every sequence of positive buffer sizes: no error exactly if the source ends with io.EOF and all it gave decrypts and unpads, and then that plaintext; otherwise what was safe to release, with the error of the source or of the ciphertext |
| DecryptStream.NextBound | mediastream.go:146-152 | the source is never asked again after the read that ended the stream |
| DecryptStream.EndedOutcome | mediastream.go:144-155 | the same of a reader that reports its end: the whole plaintext only after io.EOF; after a broken source its error and the safe prefix |
| Base64.DecodeInvertsEncode | wecom_crypto.go:68-68 | decoding undoes encoding for every byte string |
| Base64.Alphabet | wecom_crypto.go:68-68 | the letters are those of RFC 4648, in its order |
| Base64.EncodedQuanta | wecom_crypto.go:128-128 | every three bytes, filled up with zeros, become the digits of their number in base 64, with "=" for digits without a bit |
| Base64.DecodedQuanta | wecom_crypto.go:68-68 | and every four digits the bytes of their number, the bits that do not fill a byte being lost |
| Base64.DecodeQuadsAccepts | wecom_crypto.go:68-68 | a text without line breaks is accepted exactly if it is letters in groups of four, the last of which may end in one or two "=" |
| Base64.LineBreaksAreSkipped | wecom_crypto.go:68-68 | line breaks anywhere make no difference |
| Base64.ForeignIsRejected | wecom_crypto.go:68-68 | a text with any other character is rejected |
| Base64.OnePadDecodes | wecom_crypto.go:140-143 | letters followed by one "=" decode whatever their last two bits, to a known length |
| Base64.OnePadSame | wecom_crypto.go:140-143 | two such texts decode to the same bytes exactly if they differ at most in the last two bits |
| Strings.TrimSpaceExact | media.go:46-46 | trimming removes exactly the white space around a text that neither begins nor ends with it |
| Strings.SpacesAreWhiteSpace | media.go:46-46 | white space is what Unicode calls so |
| Strings.TrimCharExact | utils.go:34-34 | trimming a character removes all of it at both ends, however much, and nothing else |
| Media.LenientDecodes | media.go:45-55 | both alphabets, padded or not, amid any white space: all encodings of b decode to b |
| Media.LenientRejects | media.go:45-55 | a text with any character beyond both alphabets, "=" and line breaks, other than white space around it, is rejected |
| Media.MediaKeyOfText | mediastream.go:113-123 | every 32-byte key is read from each of its four encodings amid any white space, among them the 43 letters without "=" |
| Media.NewDecryptReader | mediastream.go:113-142 | a reader exactly for the texts of 32-byte keys, decrypting under that key and started from its first 16 bytes; otherwise the error for that text |
| Media.DecryptFile | media.go:28-37 | the streaming reader over a buffer gives what decrypting the buffer at once gives, or beside the error the plaintext that was safe to release before it; an empty buffer and every bad key have their errors |
| Media.DecryptFileInvertsEncrypt | media.go:28-37 | a padded and encrypted file comes back under its key, in whichever of the four encodings and amid whatever white space the key comes |
| AckInvariant.StepKeeps | client.go:415-522 | every step of every goroutine keeps the lane invariant |
| AckOrder.OrderKeeps | client.go:456-471 | every step that abandons only ignored sends keeps: apart from the ignored items the wire carries the written frames of items in enqueue order, and at most the send in progress is still being written; frames sent past the queue change nothing in this |
| AckOrder.WireKeeps | client.go:456-471 | every step keeps the same with the abandoned sends as the ignored ones |
| AckAnswers.AttrKeeps | client.go:487-507 | every step keeps, counting from any orderly point: with an honest server, and as long as items end by ack or by a failed send and nothing is sent past the queue, acks and channels belong to their own frames |
| AckProtocol.RunInvariant | client.go:415-648 | all of these hold after every run of steps from any state in which they hold |
| AckProtocol.PendingBelongsToWorker | client.go:474-522 | in every reachable state a req_id has at most one worker, pendingAcks holds only the channel of that worker's own item, empty and unclaimed, and clearing can remove nothing else |
| AckProtocol.AtMostOnce | client.go:487-516 | no ack channel ever receives two acks, no item two results |
| AckCalls.CallCanReturn | client.go:415-440 | what a waiting call can return next: the context's error exactly once it is cancelled, and a result exactly when its item has that result |
| AckCalls.CallCanBeQueued | client.go:428-432 | a call is held up exactly while 32 items are queued |
| AckCalls.ItemEnds | client.go:487-516 | in every reachable state the outcomes the item in hand can get if only the worker goes on: refused, failed, timed out, cancelled or acknowledged, each exactly when the code allows it |
| AckCalls.DrainedCallsReturn | client.go:434-439 | once the queue is drained every waiting call can return, with the outcome of its own item |
| AckCalls.RoundTrip | client.go:415-516 | from every idle point with an empty queue a call can be sent, acknowledged with any ack, good or bad, and returned with it |
| AckCalls.FailedRoundTrip | client.go:494-499 | or fail to be written, and be returned as failed with nothing sent |
| AckProtocol.SendsNeverBlock | client.go:645-646 | the channel sends of the read loop and of the worker always have room, so the read loop cannot stall |
| AckProtocol.WorkerProgress | client.go:487-516 | a worker with work to do always has a step to take, unless its frame is being written |
| AckDrain.WorkerRunsEnd | client.go:487-516 | however a worker goes on by itself, it comes to an end within 7 steps an item queued and those of the item in hand; where it has no step left, every item ever enqueued has exactly its result, or the worker waits for a write in progress |
| AckDrain.WorkerDrains | client.go:487-516 | from every reachable state with no write in progress some such run gives the item in hand and every queued item their results |
| AckProtocol.ConservationAndOrder | client.go:415-516 | enqueued items are the resolved ones, the one in hand and the queued ones, in enqueue order, and each resolved item has exactly its result |
| AckProtocol.SendsAreSerial | client.go:488-515 | the send of an item starts only when every item enqueued before it has its result |
| AckProtocol.WireOrder | client.go:456-471 | whatever was abandoned or sent past the queue, the frames of all other items are on the wire in enqueue order; with nothing abandoned the frames of items are exactly the written ones in enqueue order, and with nothing sent directly either they are the whole wire |
| AckLimits.OrderCanBreak | client.go:456-471 | at an idle point with the wire in order, the frames of items can get out of order without a further abandoned send exactly if one of them is still being written |
| AckLimits.Overtake | client.go:456-471 | and then by the very next frame, which goes out first |
| AckLimits.AbandonedSendIsOvertaken | client.go:466-471 | a concrete run in which a cancelled send lets the next frame go first |
| AckProtocol.ReturnedAckIsLater | client.go:488-507 | an ack that SendAndWait returns was dispatched after the registration of its item, which was after the call |
| AckProtocol.AckAttribution | client.go:488-507 | from any orderly point on (no item in hand, no frame being written, all on the wire answered): if no frame of the req_id is sent past the queue, all items before the k-th ended by ack or by a failed send, and the server acknowledges received frames once each, the ack the k-th item gets is the one for its own frame |
| AckProtocol.AttributionFromStart | client.go:488-507 | in particular from the start, if the req_id is never used past the queue |
| AckLimits.AckCanStray | client.go:488-516 | at an idle point, with an honest server and no further frame sent past the queue, the next item can be given the ack of another frame exactly if some frame, direct ones included, is on the wire unanswered or still being written |
| AckLimits.StrayAck | client.go:488-516 | and then any ack of such a frame, queued or direct, given any time to the next item |
| AckLimits.DirectSendStrays | client.go:443-471 | from every idle point, orderly or not, one more frame sent past the queue can bring the next item the ack of that frame |
| AckLimits.DirectAckIsMisattributed | README.md:152-159 | a concrete honest run in which nobody gives up: a frame goes out by Send, the next of the same req_id by SendAndWait, and gets the ack of the first |
| AckLimits.LateAckIsMisattributed | client.go:508-510 | a concrete run with an honest server in which the ack of a timed-out item is given to the next one |
| Backoff.ReconnectDelay | client.go:596-608 | the doubling loop with int64 wrap-around computes the recursive delay |
| Backoff.DelayAsIntended | client.go:596-608 | for all attempts the delay is min(R·2^(a-1), 30 s), the first wait uncapped, exactly when 2R does not overflow |
| Backoff.DelayMonotone | client.go:596-608 | up to 30 s the delay is positive, grows with the attempt and never exceeds 30 s |
| Backoff.DelayCapped | client.go:600-607 | all delays are at most 30 s exactly when the interval is |
| LifecycleRuns.InvKeeps | client.go:183-412 | every step of the client's life keeps every invariant below |
| LifecycleRuns.RunInvariant | client.go:183-412 | they hold after every run of steps of a fresh client |
| LifecycleTheorems.CallbacksAlternate | client.go:183-207 | over all runs the callbacks alternate, Connected first, and the recorded state is the last one reported |
| LifecycleTheorems.BackoffRecordedState | client.go:302-306 | at a backoff wait the record says connected exactly if it did when the call began and no dial has succeeded in it |
| LifecycleRestart.RestartBacksOffConnected | client.go:288-306 | a run of a fresh client, for all settings, that ends in a backoff wait recorded as connected |
| LifecycleTheorems.ConnectionOwnedByRun | client.go:308-335 | there is a connection exactly between set-up and tear-down of a Run, and only then loops of its own |
| LifecycleTheorems.BackoffWaits | client.go:228-278 | the n-th wait is min(R·2^(a-1), 30 s), where a counts the runs since the last connected one |
| LifecycleTheorems.OneWaitPerRun | client.go:232-278 | every wait follows one completed run |
| LifecycleTheorems.TakeoverEndsReconnecting | client.go:227-280 | after a takeover at most one more Run is started, none if it came before the current one returned; the takeover error implies a takeover; otherwise RunForever returns only when cancelled |
| LifecycleTheorems.TakeoverIsSticky | client.go:610-617 | once set, the takeover flag is set after every further run of steps |
| LifecycleTheorems.HeartbeatCounts | client.go:524-552 | the counter stays between 0 and MaxMissedPong and counts the ticks since the last reset; a tick closes the connection exactly when MaxMissedPong have gone unanswered |
| LifecycleTheorems.LanesFollowTheProtocol | client.go:415-648 | whatever runs and loops come and go, every req_id of a client is in a state its ack protocol can reach, gets only acks with its own req_id, and can take every step of that protocol |
| LifecycleTheorems.ConfirmedIsAcknowledged | client.go:347-366 | a confirmed subscription has an ack with errcode 0 and its req_id, dispatched after the call |
| LifecycleTheorems.ConnectedNeedsAck | client.go:347-379 | Connected is reported, a run reaches its steady state and connectedThisRun is set in it only when a subscription sent in this same run has such an ack; there are never more Connected callbacks than different confirmed subscriptions |
| LifecycleTheorems.RefusedIsSilent | client.go:360-366 | a run whose subscription is pending, has timed out or was refused has not reported Connected |
| LifecycleTheorems.NoLateConnect | client.go:359-376 | a run whose read loop ended first, or whose subscription failed, reports no Connected and leaves connectedThisRun unset until it returns, even if the ack arrives afterwards |
| LifecycleProgress.CallerBlocks | client.go:227-379 | the goroutine in Run or RunForever can take a step in every reachable state, unless the read loop goes on and the subscription has not returned or the run is connected; between calls either can be called |
| LifecycleProgress.RunsEnd | client.go:288-379 | a Run that goes on by itself takes at most 11 more steps, and where it can take none it returns or waits just so |
| LifecycleProgress.RefusedRunReturns | client.go:359-366 | with a subscription that was refused, timed out or failed, every course of the Run returns within five steps, without a connection and without a Connected callback, even if the read loop goes on |
| LifecycleProgress.GrantedRunConnects | client.go:359-379 | with a subscription acknowledged with errcode 0 on a connection still read, every course of the Run is connected within three steps, and has reported it if the state flipped |
| LifecycleProgress.AfterRun | client.go:240-279 | after a Run that was not cancelled RunForever returns ErrServerDisconnected after a takeover, and otherwise waits once, by the backoff delay, and dials again |
| LifecycleProgress.CancelledCallEnds | client.go:227-280 | once cancelled a call ends within 13 steps of its own, unless it waits for its read loop; RunForever then returns the context's error, unless it was just looking for a takeover |
| LifecycleProgress.WaitIsInterrupted | client.go:275-279 | a backoff wait can end in the context's error exactly when the context is cancelled |
| LifecycleProgress.TicksClose | client.go:524-552 | if no heartbeat is acknowledged any more, the connection is closed after just the ticks that are left |
| LifecycleProgress.LoopsAreConserved | client.go:337-352 | over every run of a client: one read loop and one heartbeat loop for each set-up, until it ends or closes the connection |
| LifecycleProgress.LoopsWork | client.go:392-412 | frames can come exactly while there is a read loop, left over or not, and ticks while there is a heartbeat loop |
| LifecycleInvariants.CoreMoves | client.go:183-629 | the fields under the lock change only in the critical sections that the Client object has methods for, and as those methods change them |
| ClientObject.Client.constructor | client.go:131-156 | positive settings are kept, the others become 30 s, 3 s, 5 s and 3; a fresh client has no connection, queues or pending acks and represents empty lanes |
| ClientObject.Client.TransitionConn | client.go:183-207 | is the step that marks a run connected or disconnected, with a callback exactly if the state flips |
| ClientObject.Client.SetConn | client.go:308-319 | is the set-up step of the life cycle; the first tick on a new connection never closes it |
| ClientObject.Client.ClearConn | client.go:330-335 | is the tear-down step of the life cycle, in every state in which that is taken |
| ClientObject.Client.ClearConnectedThisRun | client.go:234-236 | is the step before each Run in the life cycle, in every state in which that is taken |
| ClientObject.Client.HeartbeatTick | client.go:533-546 | is the tick step of the life cycle: either the connection is to be closed and nothing changes, or one more pong is outstanding |
| ClientObject.Client.HandleHeartbeatAck | client.go:619-629 | is the dispatch step for an ack: consumes exactly the acks with a heartbeat req_id, and resets the counter only for errcode 0 |
| ClientObject.Client.HandleReconnectControlEvent | client.go:610-617 | is the dispatch step for an event, with or without a body: the flag of the machine is set exactly for disconnected_event |
| ClientObject.Client.ReconnectDelay | client.go:596-608 | the delay for the configured interval |
| ClientObject.Client.ReplyQueue | client.go:474-485 | returns the one queue of the req_id; made, and its worker started, only when there was none |
| ClientObject.Client.Enqueue | client.go:428-432 | is the enqueue step of the lane |
| ClientObject.Client.Dequeue | client.go:487-488 | is the dequeue step; the worker gets the oldest item |
| ClientObject.Client.Register | client.go:489-492 | is the registration step: a fresh empty channel becomes the pending one of this req_id only |
| ClientObject.Client.ClearPendingAck | client.go:518-522 | is the clearing step: only the entry of this req_id goes |
| ClientObject.Client.DispatchAck | client.go:579-591 | is the dispatch step: heartbeat acks first, then the pending channel is taken out of the map, once |
| ClientObject.Client.PutAck | client.go:645-646 | is the second half of resolving: the claimed channel has room and then holds exactly this ack |
| ClientObject.Client.TakeAck | client.go:501-507 | is the receive step: what the worker receives is what it will deliver |
| ClientObject.Client.OthersStay | client.go:415-522 | after each of these methods the object goes on representing the lanes of all other req_ids |
| Envelope.ParseAccepts | wecom_crypto.go:87-105 | a payload parses to m exactly if it is 16 bytes, the length of m, m, and a tail that is the receive id when one is expected |
| Envelope.ParseRejects | wecom_crypto.go:87-105 | the error for every other payload: too short, announcing more than there is, or the wrong id behind the message |
| Envelope.ParseOfLayout | wecom_crypto.go:87-119 | parsing a written frame, for all messages and receive ids: m, a receive-id mismatch, or for 4 GiB and more the message cut at its length modulo 2^32 |
| Envelope.OpenOfSeal | wecom_crypto.go:67-133 | the same through padding, CBC and base64 |
| Envelope.SealedBytes | wecom_crypto.go:109-128 | a sealed text is base64 of the CBC encryption of the random bytes, the length modulo 2^32, the message, the receive id and 1 to 32 pad bytes, the random bytes chained with the initial value |
| Envelope.OpenInvertsSeal | wecom_crypto.go:67-133 | decrypting an encrypted message returns it exactly if it is shorter than 4 GiB and the receive id is not checked or the same |
| Envelope.OpenAccepts | wecom_crypto.go:67-105 | a text opens to m exactly if it is base64 of the encryption of some padded frame of m |
| Envelope.OpenRejects | wecom_crypto.go:67-105 | the error for every other text, in the order in which the code looks for them |
| Envelope.FromBe32Inverts | wecom_crypto.go:116-117 | the length is written big-endian and read back |
| Envelope.Be32Inverts | wecom_crypto.go:91-91 | every four bytes are the encoding of the length they are read as |
| Envelope.ConsoleKeyDecodes | wecom_crypto.go:135-151 | every key of 43 letters is accepted, amid white space too, although its last bits need not be zero |
| Envelope.ConsoleKeyPadded | wecom_crypto.go:135-143 | a key of 43 letters with its "=" is the same key |
| Envelope.SameConsoleKey | wecom_crypto.go:135-151 | two such keys are the same key exactly if they differ at most in the last two bits |
| Callbacks.WecomCrypto.Encrypt | wecom_crypto.go:109-133 | the buffer-filling method produces the sealed text and its signature |
| Callbacks.WecomCrypto.Decrypt | wecom_crypto.go:67-107 | the method with its early exits opens texts as specified, with the same errors |
| Callbacks.ConfiguredRoundTrip | wecom_crypto.go:36-133 | two sides configured with keys that differ at most in the ignored bits keep their token and receive id and share one key; what one encrypts, starting from the first half of the key, the other decrypts, exactly under the conditions above; without a token there is no configuration |
| Signature.SortsAgree | wecom_crypto.go:54-56 | any ordered arrangement of the same strings is the sorted one |
| Signature.SignatureOfAnyOrder | wecom_crypto.go:53-59 | the signature is the digest of the four strings in their order and joined, and does not depend on the order they are listed in |
| Signature.AtMostIsLexicographic | wecom_crypto.go:55-55 | the order is that of Go strings: a prefix, or a smaller character at the first difference |
| Signature.VerifiersAreExact | wecom_crypto.go:61-64 | both verifiers accept exactly the digest of the four strings, arranged in their order and joined |
| Callbacks.FirstNonEmpty | webhook.go:292-299 | the first value that is not empty, and the empty string only if all are |
| Callbacks.TimestampEchoed | webhook.go:283-290 | the reply carries the request's timestamp whenever that is an int64, and otherwise the time of day |
| Callbacks.HandleEncryptedMessage | webhook.go:207-281 | each answer exactly in its case, also for an answer that does not encode or encrypt: a request is refused exactly if the first of its signatures that is not empty is not the digest of its four strings; nothing that does not open is handled, and a reply is the sealed answer with the request's timestamp and nonce, signed likewise |
| Callbacks.SealAnswer | webhook.go:262-277 | the answer is sealed and signed for the timestamp and nonce that go with it, unless there are no random bytes |
| Callbacks.ReplyIsReadable | webhook.go:262-277 | such a reply passes both signature verifiers and opens to the answer exactly if that is shorter than 4 GiB |
| Upload.UploadMedia | upload.go:50-123 | each refusal in its case, and then nothing is sent; else the frames sent are the announcement, the chunks of the data in order under the upload id of the first ack, and the end; all replies but the last are acks with errcode 0, and the last one decides: a missing or bad ack is returned at once, and success is an accepted end with a media id |
| Upload.SendChunks | upload.go:89-107 | chunk frames go out in order, each after an ack with errcode 0 for the one before; no error exactly if all are so acknowledged, otherwise the reply that is not, with nothing sent after it |
| Upload.SendFinish | upload.go:109-122 | one last frame; success exactly with an ack with errcode 0 and a media id, which is returned, otherwise the error for that reply |
| Upload.ChunksAreTheData | upload.go:89-103 | decoded and joined in index order the chunks are the data; all are full but the last, which is not empty |
| Upload.LimitInBytes | upload.go:58-61 | the limit of 100 chunks is a limit of 52 428 800 bytes |
| Decimal.ParseInvertsFormat | webhook.go:283-288 | every int64, the least included, is read back from its decimal form |
| Decimal.ParseFormat | utils.go:38-42 | a decimal form is read back exactly if its number is an int64, and rejected otherwise |
| Decimal.ParseIntOverflows | utils.go:38-42 | a decimal form is accepted exactly if its number is an int64 |
| Decimal.ParseIntAccepts | utils.go:38-42 | an optional sign and digits are read as their value if that is an int64; nothing else is accepted |
| Decimal.ParseDigitsSnoc | utils.go:38-42 | one more digit counts ten times what stands before it and itself |
| Decimal.FormatCanonical | utils.go:48-50 | what is written has a sign only if negative, and no leading zero |
| Timestamps.Timestamp.UnmarshalJSON | utils.go:32-45 | never fails, and always leaves an int64 |
| Timestamps.Timestamp.MarshalJSON | utils.go:48-50 | what is written is read back |
| Timestamps.UnmarshalInvertsMarshal | utils.go:32-50 | every int64 comes back from its decimal form, between any quotes and amid white space; every other number reads as zero |
| Timestamps.UnmarshalAmidSpace | utils.go:32-45 | whatever is left of a text without white space and then quotes at its ends reads as the int64 it is and otherwise as zero |
| Timestamps.NothingIsZero | utils.go:34-42 | null, nothing and every text that is no int64 read as zero, between any quotes and amid white space |

## Left out

- AES, SHA-1, MD5 and random bytes: parameters; AES is only assumed to be a permutation of blocks with its inverse for each key.
- JSON, HTTP, WebSocket frames and logging: frames and acks are already parsed; a frame that does not parse ends a read loop, as any end of one may.
- Time: ticks, timeouts and expired waits are steps that may come at any moment.
- Send: an absent connection and a payload that does not marshal are one nondeterministic refusal, and a direct send so refused is no step; it is not tied to the connection field, and the mutex around writes is the atomicity of the write step.
- SendAndWait without a req_id is refused at once and is no step; lanes are those of proper req_ids.
- Contexts of requests may be cancelled at any moment, also those the library never cancels; loops left over from earlier runs may take any number of further steps. Both allow more runs than the code.
- Two calls of Run or RunForever at the same time on one client.
- Run with an empty BotID or Secret: it returns like a failed dial.
- The error values of Run: only whether it connected counts for RunForever; of RunForever the results are modelled.
- Handlers: the asynchronous calls of onMessage, onEvent and onAck, and what they do beyond calling SendAndWait.
- DecryptStream.DecryptReader.FillUntilReady: termination is for sources that from some read on never return zero bytes without an error, because io.Reader allows a source that never makes progress and Read then does not return.
- AckProtocol.WorkerProgress: says that a step is possible, not that the scheduler takes it.
- AckProtocol.AckAttribution: an item whose send failed counts as harmless, which assumes that a frame whose WriteMessage returned an error never reaches the server.
- AckLimits.AckCanStray: a frame written to a connection that has since been closed counts as one the server may still answer at any time; and acks of req_ids with the heartbeat prefix are never given to a request, so for those nothing strays.
- Slices on arrays: `data` and `all` are the arrays of `carry` and `hold` with a length; out, a bytes.Buffer, is a sequence.
- Strings are sequences of characters standing for bytes, or byte sequences where bytes matter; the white space of TrimSpace is that of Unicode; int is the 64-bit int of Go's usual platforms.
- Sorting: sort.Strings is any function that orders its list, since the result is the same for all of them.
- HTTP status codes, the encoding of the last response, the plain-text webhook and the echo request, reply constructors, file names from headers, and the example program: no state or arithmetic worth a proof.
- Base64.Decode: Go's errors carry the offset of the bad character, which callers only print.

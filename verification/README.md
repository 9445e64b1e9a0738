# Loxone Miniserver client: a verified model

This project models the client half of the Loxone Miniserver WebSocket protocol and proves what its parts promise over
all inputs, all interleavings and all runs. `dafny verify dfyconfig.toml` checks it.

Byte strings (`Text`) stand for both `[u8]` and `str`; UTF-8 validity is stated where the client depends on it. The AES
block cipher is an arbitrary function with an inverse, clocks and random salts are inputs, floats stay eight opaque bytes.

| file | part of the client |
|---|---|
| `Bytes.dfy`, `Utf8.dfy`, `Base64.dfy`, `Percent.dfy`, `Cbc.dfy` | bytes, UTF-8 and trimming; Base64 (section 4 of RFC 4648); percent-encoding (section 2.1 of RFC 3986); CBC (section 6.2 of NIST SP 800-38A) |
| `WordScan.dfy`, `ControlScan.dfy` | the word-at-a-time search and the scan for `LL.control` |
| `SaltSession.dfy`, `ControlEcho.dfy` | command encryption, the salt sequence, and reading an echoed control back |
| `Pending.dfy`, `Correlation.dfy`, `Session.dfy` | the queue of waiting commands; writer, Miniserver and reader as a step relation; the code of both as compositions of its steps |
| `Liveness.dfy` | keepalive counting between writer and reader |
| `Framing.dfy`, `EventTables.dfy`, `Uuid.dfy`, `Collect.dfy` | frames and messages, event tables, UUIDs and collected maps |
| `TokenStore.dfy`, `TokenLife.dfy` | the token file and its mirror in memory; which tokens are presented over all sessions |
| `Supervisor.dfy` | the connect, listen and reconnect loop |

Concurrent parts are step relations: every locked region, every clock reading that is used later and every socket write
is a step of its own, so the theorems range over every interleaving. Imperative code is modelled by classes and loops
whose contracts equate the new state with a function of the old one; the promises are proved about those functions.

## Where the code and a stated promise differ

- A command that expires shifts answers: its late answer goes to the next waiter (`Correlation.LateAnswerMisattributed`).
  `Correlation.AnswerGoesTo` gives the exact condition, `Correlation.OwnAnswers` the promise without expiry.
- A command ending in NUL loses its trailing NULs on the way back (`ControlEcho.RoundTripIff`), and the cheap comparison and
  the decrypting path can then disagree (`ControlEcho.TrailingNulDiffers`, exact condition in `ControlEcho.VerbatimEcho`).
- A close code that arrives during the handshake is reduced to a plain error, so 4004, 4005 and 4006 do not cost the token
  there (`TokenLife.EarlyCloseRun`, exact condition in `TokenLife.ClosedHeldIff` and `TokenLife.PresentedNextIff`).
- For the same reason 4006 met while reconnecting does not stop the client (`Supervisor.SessionAfterEarlyClose`,
  `Supervisor.KnocksOn`, exact condition in `Supervisor.GoesOnIff` and `Supervisor.SessionAfterDisabledIff`), and 4003,
  4007 and 4008 get the normal wait there (`Supervisor.BackoffIs`).
- A displaced token that was killed stays in memory if no new one is granted. It is presented again only if the clock runs
  backwards (`TokenLife.BackwardClockRun`, exact condition in `TokenLife.KilledNextIff`).
- A token with a line break is kept in memory but not in the store (`TokenStore.MirrorIff`).
- `MAX_INTERLEAVED_FRAMES` is documented as a number of event tables; estimated headers count against its 64 too
  (`Framing.AnswerEstimates`).

## Model

| member | source | states |
|---|---|---|
| WordScan.MarkLanes | src/client/pending.rs:273-275 | in every word, up to and including the first zero byte exactly the zero bytes are marked; a false mark from a borrow can only sit above a true zero byte |
| WordScan.LowestMark | src/client/pending.rs:290-291 | the number of trailing zeros of a mask divided by eight is the index of its first true mark |
| WordScan.ChunkHit | src/client/pending.rs:287-292 | for every eight bytes the OR of the two masks is zero exactly when neither byte occurs, and otherwise its lowest bit names the first occurrence the naive scan finds |
| WordScan.FindEither | src/client/pending.rs:283-299 | the word-at-a-time search returns what the byte-at-a-time search returns, for every haystack: the least index holding either byte |
| WordScan.WordAtInjective | src/client/pending.rs:258-262 | equal words come from equal bytes, so comparing words compares the eight bytes |
| ControlScan.KeyByWord | src/client/pending.rs:314-323 | the word comparison plus the ninth byte accepts a position exactly if the key stands there |
| ControlScan.FindControlKey | src/client/pending.rs:311-328 | jumping from quote to quote finds what comparing nine bytes at every offset finds |
| ControlScan.FindQuote | src/client/pending.rs:342-348 | the loop over the bytes after the key gives the position of the opening quote of the reference |
| ControlScan.ExtractLlControl | src/client/pending.rs:337-359 | the whole scan with the word searches equals the scan with naive searches |
| ControlScan.QuoteIff | src/client/pending.rs:342-348 | a quote is found if and only if the first colon after the key is followed by whitespace only and then that quote |
| ControlScan.ValueIff | src/client/pending.rs:350-358 | a value is found if and only if it stands between the quotes, is valid UTF-8 without quote or backslash and shorter than 8192 bytes |
| ControlScan.ControlIff | src/client/pending.rs:337-359 | the scan returns c if and only if the first key wholly in the first 512 bytes is followed by a first colon, whitespace and the quoted valid c |
| Base64.DecodeEncode | src/crypto/session.rs:106-108 | strict decoding (section 4 of RFC 4648, with padding) undoes encoding for every byte string |
| Base64.EncodeSlice | src/crypto/session.rs:235-239 | encoding into a buffer fails only if it does not fit, and otherwise fills exactly the front it reports |
| Percent.PercentEncodeBase64 | src/crypto/session.rs:262-276 | copying whole runs appends the byte-wise escaping of the input to whatever the output held |
| Percent.AgreesWithGeneral | src/crypto/session.rs:252-258 | on Base64 text it is byte-identical to the encoder that escapes every non-alphanumeric byte |
| Percent.EscapedAlphabet | src/crypto/session.rs:254-258 | the output on Base64 text consists of alphanumeric characters and percent signs, so it holds no slash |
| Percent.RoundTrip | src/crypto/session.rs:102-105 | percent-decoding undoes the escaping of every text without a percent sign |
| Cbc.XorByte | src/crypto/session.rs:231-233 | exclusive or with the same byte again gives the first byte back |
| Cbc.DecryptEncrypt | src/crypto/session.rs:304-308 | CBC decryption undoes CBC encryption for every block permutation, chain value and block-aligned data |
| Cbc.PaddedLen | src/crypto/session.rs:229-230 | padding reaches the next multiple of sixteen and adds nothing on a boundary |
| Cbc.DecryptZeroPadded | src/crypto/session.rs:313-326 | a length that is not a multiple of sixteen is refused |
| Cbc.ZeroPaddedRoundTrip | src/crypto/session.rs:298-326 | zero padding, encryption and decryption lose exactly the trailing NULs |
| SaltSession.SaltState.Reset | src/crypto/session.rs:153-159 | everything back to the initial state, buffers included |
| SaltSession.SaltState.FillSaltedPlaintext | src/crypto/session.rs:190-210 | the scratch buffer holds prefix, command and NUL whatever it held before, and the bookkeeping moves to the specified next state |
| SaltSession.SaltState.Encrypt | src/crypto/session.rs:225-249 | the fused pipeline over the two reused buffers equals pad, CBC, Base64, byte-wise escaping and prefix, whatever earlier commands left in the buffers; the two error exits are not taken |
| SaltSession.SinceOrigin | src/crypto/session.rs:173-210 | before every command the bookkeeping is the salt, stamp and use count of the command that created the salt |
| SaltSession.SaltLifetime | src/crypto/session.rs:182-210 | no salt serves more than 31 commands |
| SaltSession.SaltReused | src/crypto/session.rs:182-210 | a command reuses the active salt if and only if it is among the 30 after its creation and the salt is at most 3600 seconds old |
| SaltSession.AnnouncedPrefix | src/crypto/session.rs:190-210 | read by a Miniserver, a plaintext announces the active salt, or the rotation from the salt active just before to the new one |
| SaltSession.ChainAccepted | src/crypto/session.rs:173-210 | over every sequence of commands, salts and clock readings a Miniserver tracking the salt accepts every command and holds the same salt as the client |
| ControlEcho.StripPrefixed | src/crypto/session.rs:282-295 | stripping recovers the command behind both prefix forms, even if it holds slashes or starts with a prefix itself |
| ControlEcho.WireShape | src/crypto/session.rs:245-248 | the wire text holds the encryption prefix exactly once, at its start, and no slash behind it |
| ControlEcho.DecryptWire | src/crypto/session.rs:97-111 | decrypting a wire text gives back its plaintext without trailing NULs |
| ControlEcho.DecodeEncrypted | src/client/pending.rs:365-372 | decoding the echo of an encrypted command loses exactly its trailing NULs, for every salt state and key |
| ControlEcho.RoundTripIff | src/client/pending.rs:365-372 | the command comes back verbatim if and only if it does not end in NUL |
| ControlEcho.SumSegments | src/client/pending.rs:230-239 | adding up segment lengths gives the text before the n-th slash |
| ControlEcho.VerbatimEcho | src/client/pending.rs:137-159 | for every command the comparison accepts a verbatim echo; the decrypting path agrees exactly when the verb survives stripping NULs, in particular for every command not ending in NUL |
| ControlEcho.TrailingNulDiffers | src/client/pending.rs:137-159 | under every key, salt and draw the comparison accepts the echo of `a`, blank, NUL and the decrypting path does not |
| ControlEcho.ReencodedEcho | src/client/pending.rs:147-153 | an echo of the same command under any other salt matches through the decrypting path |
| ControlEcho.EchoQuirks | src/client/pending.rs:215-221 | a leading slash, a missing j and trailing NULs do not keep an echo from comparing equal |
| ControlEcho.EchoMatches | src/client/pending.rs:137-159 | every echo of an encrypted command matches it: a respelling of the text sent, or the command encrypted anew if it does not end in NUL |
| Pending.DueCount | src/client/pending.rs:167-184 | the number removed by the loop: everything before the first entry that is not due |
| Pending.ExpireExact | src/client/pending.rs:78-82 | on a queue in deadline order exactly the due entries are removed and the head has the least deadline |
| Pending.CompletionsAppend | src/client/pending.rs:174-179 | the outcomes sent grow by exactly the waiter of the entry handled |
| Pending.PendingQueue.NextDeadline | src/client/pending.rs:80-82 | the head deadline is the minimum of an ordered queue |
| Pending.PendingQueue.Push | src/client/pending.rs:109-122 | one entry more at the back, counters unchanged |
| Pending.PendingQueue.Resolve | src/client/pending.rs:137-159 | pops the head or changes nothing; the verdict, the mismatch count and the decoded control are those of the reference |
| Pending.PendingQueue.NoteUnsolicited | src/client/pending.rs:162-164 | counts one answer without a waiter and leaves the queue |
| Pending.PendingQueue.Expire | src/client/pending.rs:167-184 | the loop removes and counts the due front and tells exactly its waiters, in order |
| Pending.PendingQueue.FailAll | src/client/pending.rs:187-195 | every waiter is told once, in order, and the queue is empty |
| Correlation.VisuPush | src/client/visu.rs:30-35 | a queue of at most one holds exactly the newest command afterwards |
| Correlation.DeliverFifo | src/client/pending.rs:137-159 | an answer answers the oldest outstanding command and is taken by the entry `Shift` places behind it; an empty queue means something was shifted |
| Correlation.StepFifo | src/client/writer.rs:255-286 | every step of writer, Miniserver and reader keeps the queue equal to the outstanding commands minus the oldest `Shift` |
| Correlation.StepPhases | src/client/writer.rs:121-177 | what the writer's position says about unwritten commands, the stop flag, the visu queue and the dropped count is kept by every step |
| Correlation.StepOnce | src/client/writer.rs:188-211 | every step keeps each waiter in exactly one place: queued, in hand, or told |
| Correlation.StepNumbered | src/client/writer.rs:263-273 | every step keeps the waiters of the outstanding commands in the order they were taken |
| Correlation.StepOrdered | src/client/writer.rs:268-272 | every step keeps the queue in deadline order, although the deadline is read before the lock is taken |
| Correlation.BoundedClosing | src/client/writer.rs:357-384 | the key request of a graceful close has left the queue before the kill request is made |
| Correlation.StepBounded | src/client/writer.rs:195-218 | every step keeps the number of entries with a waiter within the limit, although controls bypass the check |
| Correlation.StepOwn | src/client/reader.rs:232-284 | while nothing expired, every step keeps every answer with the command it answers, whatever control the answer carries |
| Correlation.StepCounted | src/client/pending.rs:140-151 | every step keeps the mismatch count equal to the number of answers taken whose control disagrees with the entry that took them |
| Correlation.RunKeeps | src/client/io.rs:428-469 | every state of every interleaving satisfies all of these invariants |
| Correlation.AnswersOwed | src/client/pending.rs:137-196 | answers still owed are the queue length plus timeouts and dropped entries minus unsolicited answers, and nothing is dropped before the end |
| Correlation.OwnAnswers | src/client/pending.rs:109-159 | as long as nothing expired and whatever controls the answers carry, the queue is the unanswered commands in wire order, every answer is taken by its own command, every answered waiter got its own answer, and only getvisusalt answers are hashed |
| Correlation.MismatchesCounted | src/client/pending.rs:140-151 | in every run, expiries included, the mismatch count is the number of answers taken whose control matches neither way with the entry that took them |
| Correlation.NoMismatchIff | src/client/pending.rs:137-159 | without expiry no mismatch is counted if and only if every control read matches the command it answers |
| Correlation.EchoedRun | src/client/pending.rs:137-159 | without expiry no mismatch is counted in a run whose commands are encrypted under the session key and whose answers carry no control, a respelling of the text they answer, or the same command encrypted anew |
| Correlation.AnswerGoesTo | src/client/reader.rs:243-250 | with expiry: a waiter is handed its own answer if and only if as many answers were read unsolicited as entries timed out |
| Correlation.ExactlyOnce | src/client/writer.rs:386-397 | no waiter is told twice, and after the end every waiter taken has been told exactly once |
| Correlation.ExpiryExact | src/client/writer.rs:293-302 | in every run the expiry step removes exactly the entries whose deadline has passed |
| Correlation.WaitersBounded | src/client/writer.rs:200-211 | in every run entries with a waiter never exceed the limit, plus one once a stop was requested |
| Correlation.VisuOnce | src/client/reader.rs:287-314 | no more answers are hashed than secured commands were taken, so a queued one is sent at most once |
| Correlation.LateAnswerMisattributed | src/client/pending.rs:125-129 | for any two commands and any control: after the first expired, its late answer is handed to the waiter of the second |
| Session.SessionTask.PrepareCommand | src/client/writer.rs:263-286 | is the steps encrypt and register, or encrypt and tell the waiter of the failure |
| Session.SessionTask.OnIoCommand | src/client/writer.rs:188-239 | each command of the facade is the composition of steps the protocol model gives it, and what is returned for writing is what was registered |
| Session.SessionTask.ExpirePending | src/client/writer.rs:293-302 | is the expiry step, and reports how many entries timed out |
| Session.SessionTask.Finish | src/client/writer.rs:386-397 | is the final step: nothing is pending and, with the reader idle, every waiter taken has been told exactly once |
| Session.SessionTask.Correlate | src/client/reader.rs:241-250 | is the delivery step: the head of the queue or one more unsolicited answer |
| Session.SessionTask.VisuWaits | src/client/reader.rs:273-276 | is the check step: a visu command is drained only behind a getvisusalt command and only if one waits when the queue is looked at |
| Session.SessionTask.FlushVisu | src/client/reader.rs:287-314 | is the drain step, a locked region of its own: whatever waits by then leaves the queue, and its secured command goes out, if anything waits and it could be hashed |
| Session.SessionTask.OnTextMessage | src/client/reader.rs:232-284 | is delivery, check, drain if wanted, and completion, in this order |
| Liveness.Counters.RecordAck | src/client/state.rs:143-153 | counts one answer, never beyond the keepalives sent |
| Liveness.Counters.OnKeepaliveTick | src/client/writer.rs:241-253 | stops exactly at the limit and otherwise sends one more |
| Liveness.RunInv | src/client/state.rs:126-161 | every interleaving of ticks and of the load and update of an answer keeps the counters ordered and within the limit |
| Liveness.AlwaysBounded | src/client/state.rs:156-160 | never more answers than keepalives, and never more misses than tolerated |
| Liveness.WorstStep | src/client/state.rs:137-142 | the greatest suffix balance grows by one per keepalive and shrinks by one per answer, but not below zero |
| Liveness.MissedIsWorst | src/client/state.rs:137-160 | the missed count is the greatest number of sends minus answers over all suffixes of the run: no banked credit, no forgiveness |
| Liveness.SilentTicks | src/client/writer.rs:241-253 | without answers every tick that does not stop adds one miss |
| Liveness.SilentEnds | src/client/writer.rs:241-253 | whenever answers stop, the session is over after the limit plus one further ticks |
| Framing.EncodeHeader | src/proto/header.rs:72-82 | parsing reads back every header |
| Framing.Reader.Run | src/client/reader.rs:90-148 | on every stream, silent or broken at its end, and wherever a callback panics, the read loop dispatches and ends as the reference does, of which the lemmas below say what it dispatches |
| Framing.ReadEstimates | src/client/reader.rs:158-165 | any number of estimated headers changes only how long the next header is waited for |
| Framing.ReadBody | src/client/reader.rs:166-192 | an exact header and its payload frame, if any, dispatch one message whatever the payload looks like |
| Framing.ReaderDispatches | src/client/reader.rs:150-229 | from any header state the reader dispatches exactly the messages of the stream, in order, and is back at its start; a panicking callback ends it with exactly the messages up to that one |
| Framing.OutOfServiceCloses | src/client/reader.rs:167-171 | an out-of-service message ends the session with code 1012 and nothing behind it is dispatched |
| Framing.ReadServed | src/client/reader.rs:150-229 | of every stream of messages that ends in silence, a break or a close, the reader dispatches exactly those before the first out-of-service one, up to the one whose callback panics |
| Framing.ReadPayload | src/client/handshake.rs:237-279 | the bounded loop returns, forwards and leaves what the reference does on every stream, with a timeout, a broken stream, a close and a panicking callback told apart |
| Framing.AnswerEstimates | src/client/handshake.rs:238-243 | every estimated header costs one of the 64 headers |
| Framing.AnswerHead | src/client/handshake.rs:239-267 | one message costs its estimates and its header, and is returned, forwarded or passed over by its type |
| Framing.AtAnswerIs | src/client/handshake.rs:237-260 | the split used below is at the first type-0 message, if nothing before it is out of service, and is missing only if there is no such message |
| Framing.AnswerIff | src/client/handshake.rs:237-272 | on every stream of messages, whatever follows the answer: reading an answer succeeds if and only if a type-0 message comes within 64 headers with nothing out of service before it and no callback panics up to it; then exactly the events before it were forwarded and the stream stands right behind it |
| Framing.NothingLost | src/client/handshake.rs:224-236 | for any number of handshake commands and any end of the stream, their events followed by the events the reader dispatches are the events of the stream, and likewise for the answers: all of them, those before it goes out of service, or up to and including the message whose callback panics |
| EventTables.ValuesRoundTrip | src/proto/value.rs:34-43 | walking an encoded value table returns it and ignores an incomplete record behind it |
| EventTables.ValuesTruncated | src/proto/value.rs:23-26 | cutting any payload anywhere only loses records at the end |
| EventTables.WalkValues | src/proto/value.rs:34-43 | the indexed loop yields the records of the reference walk |
| EventTables.RecordLen | src/proto/text.rs:38 | a record occupies the next multiple of four |
| EventTables.LastPadding | src/proto/text.rs:23-25 | a record whose padding is missing or cut is still delivered |
| EventTables.TextsRoundTrip | src/proto/text.rs:18-25 | walking encoded text records returns them, whatever bytes pad them and with all, part or none of the last padding |
| EventTables.TextsBehind | src/proto/text.rs:38-42 | padded records in front of anything are walked exactly, then what follows |
| EventTables.TextEncodes | src/proto/text.rs:27-37 | a record read encodes to the bytes it was read from |
| EventTables.TextsEncode | src/proto/text.rs:27-44 | conversely every payload is the encoding of the records read from it, up to a last one with its padding cut and to bytes that hold no record |
| EventTables.TextsTruncated | src/proto/text.rs:27-44 | cutting any payload anywhere only loses records at the end |
| EventTables.WalkTexts | src/proto/text.rs:27-44 | the loop ends on every payload and yields the records of the reference walk |
| EventTables.ChunksOfJoin | src/proto/daytimer.rs:125-131 | splitting joined entries gives them back |
| EventTables.SplitTable | src/proto/daytimer.rs:135-142 | splitting off a table strictly shortens the payload |
| EventTables.EncodedTable | src/proto/weather.rs:196-203 | an encoded table in front of anything is split off exactly, for daytimer and weather layouts |
| EventTables.SplitEncodes | src/proto/daytimer.rs:125-142 | conversely a table split off has exactly the announced entries and encodes to the bytes it was read from |
| EventTables.TablesRoundTrip | src/proto/daytimer.rs:149-159 | walking encoded tables returns them |
| EventTables.TablesTruncated | src/proto/weather.rs:205-220 | cutting any payload anywhere only loses tables at the end |
| EventTables.WalkTables | src/proto/weather.rs:210-220 | the loop ends on every payload and yields the tables of the reference walk, for both layouts |
| EventTables.WalkDaytimerRaw | src/proto/daytimer.rs:165-179 | the raw walk calls back with the flattening of the table walk |
| LoxoneUuid.PutHex | src/uuid.rs:27-31 | two digits are written at the place and nothing else changes |
| LoxoneUuid.FormatLoxoneBytes | src/uuid.rs:100-119 | filling the buffer of dashes gives the 8-4-4-16 form with the first three fields byte-swapped |
| LoxoneUuid.ParseUuid | src/uuid.rs:157-198 | filling the sixteen bytes nibble by nibble gives the reference parse, errors included |
| LoxoneUuid.ParseIff | src/uuid.rs:157-198 | parsing succeeds if and only if exactly 32 hex digits remain without the dashes |
| LoxoneUuid.ParseFormat | src/uuid.rs:95-119 | parsing the string form gives every UUID back |
| LoxoneUuid.FormatInjective | src/uuid.rs:131-137 | different UUIDs have different string forms |
| Collect.LastWins | src/collect.rs:93-102 | a key is present if and only if a record has it, and holds the last such record |
| Collect.NamesAreFormatted | src/collect.rs:138-154 | collecting by name is collecting by UUID with every key formatted: same keys, same values, no others |
| Collect.CollectValues | src/collect.rs:96-102 | the map of the value records |
| Collect.CollectTexts | src/collect.rs:130-136 | the map of the text records |
| Collect.CollectValuesByName | src/collect.rs:139-145 | the map of the value records under their string forms |
| Collect.CollectTextsByName | src/collect.rs:148-154 | the map of the text records under their string forms |
| TokenStore.ParsePrintI64 | src/auth/store.rs:141 | every 64-bit expiry reads back, its sign included |
| TokenStore.LinesOf | src/auth/store.rs:125-132 | a line without line breaks is read back as one line whatever follows |
| TokenStore.SplitOnceOf | src/auth/store.rs:133-135 | key and value are separated at the first equals sign, so values may hold more of them |
| TokenStore.RecordRoundTrip | src/auth/store.rs:114-196 | a written record reads back identically if binding and token hold no line break and the token is not empty |
| TokenStore.FileTokenStore.ReadRecord | src/auth/store.rs:114-158 | the loop over the lines reads what the reference reads, first usable occurrence winning |
| TokenStore.FileTokenStore.WriteRecord | src/auth/store.rs:160-196 | a token with a line break is refused and the old file kept; otherwise the file is exactly the record |
| TokenStore.FileTokenStore.Load | src/auth/store.rs:200-210 | answers only for the binding in the file |
| TokenStore.FileTokenStore.Save | src/auth/store.rs:212-220 | an empty token removes the file |
| TokenStore.FileTokenStore.Clear | src/auth/store.rs:222-228 | removes the file whatever the binding |
| TokenStore.SavedRecord | src/auth/store.rs:212-220 | whatever the file held, after a save it reads as the record saved, as nothing for an empty token, or as before for a token with a line break |
| TokenStore.FileHoldsSlot | src/auth/store.rs:199-229 | from any earlier file content: after any saves, clears and loads the file reads as the record of the last effective save, as what was there first, or as nothing |
| TokenStore.StoreIsOneSlot | src/auth/store.rs:199-229 | from any earlier file content and over every such sequence a load answers exactly for the binding of that slot, with exactly its token, whatever the tokens hold |
| TokenStore.SetMirrorsIff | src/client/state.rs:62-74 | from any file the store mirrors a token without line breaks; from a file holding no token with a line break it mirrors no other |
| TokenStore.RestoreMirrors | src/client/state.rs:92-108 | after restoring, memory and store agree if and only if a token was adopted or none was held |
| TokenStore.MirrorIff | src/client/state.rs:62-108 | over every sequence of new and forgotten tokens after a restart: from any file the store mirrors a held token without line breaks; from a file holding no token with a line break it mirrors no other |
| TokenStore.SharedState.SetToken | src/client/state.rs:68-74 | from any earlier state, mirrored or not, a token without line breaks ends up in both; one with a line break does not, unless the file already held such a token |
| TokenStore.SharedState.ClearToken | src/client/state.rs:78-84 | both are emptied, the hash algorithm stays |
| TokenStore.SharedState.RestoreToken | src/client/state.rs:92-108 | adopts a saved token unless it is expired, then drops it; memory and store agree afterwards exactly if one was adopted or none was held |
| TokenLife.PlaySound | src/client/handshake.rs:80-151 | a whole session, its handshake, refreshes and end, keeps the held token apart from every spent one |
| TokenLife.NeverPresentedAgain | src/client/handshake.rs:80-151 | over all sessions of a run, from any restored token, a token refused with an invalidating status, or whose established session closed with 4004, 4005 or 4006, is never presented again |
| TokenLife.KeptIff | src/auth/flow.rs:98-100 | an answered authwithtoken costs the token if and only if its status is none of 200, 423, 500, 503 and 901, even if getjwt then fails; a 200 may replace it by a new issue |
| TokenLife.OtherTroubleKeeps | src/client/handshake.rs:305-312 | 423, 500, 503 and 901 leave the same token; 423 stays terminal and 901 stays a long backoff through the added step name |
| TokenLife.PlayAdds | src/client/io.rs:187-200 | every close a session meets is noted as read by the reader if and only if its handshake succeeded |
| TokenLife.ClosedHeldIff | src/client/io.rs:197-200 | a close with 4004, 4005 or 4006 leaves its token held if and only if the handshake of the session that met it did not succeed |
| TokenLife.ShowsIff | src/client/handshake.rs:80-96 | a session presents exactly the token held before it, and does so if and only if key exchange and getkey succeed and the token has time left |
| TokenLife.PresentedNextIff | src/client/handshake.rs:80-96 | the session after such a close presents the closed token if and only if the handshake that met the close did not succeed and its own gets as far as authwithtoken |
| TokenLife.PresentedAfterClose | src/client/io.rs:197-200 | over all runs a token closed with 4004, 4005 or 4006 is presented again only if the session that met the close did not finish its handshake |
| TokenLife.EarlyCloseRun | src/client/handshake.rs:290-292 | and for every code there is such a run: a close during the key exchange, then a handshake that presents the token |
| TokenLife.PresentedAfterKill | src/client/handshake.rs:154-159 | over all runs a killed token that is presented again was first presented at an earlier clock reading than that of the kill |
| TokenLife.KilledNeverPresented | src/client/handshake.rs:80-88 | so under a clock that does not run backwards a killed token is never presented |
| TokenLife.KilledNextIff | src/client/handshake.rs:80-159 | the session after a kill presents the killed token if and only if no new one was granted and the next handshake gets to authwithtoken by a clock that gives the token time again, which is then an earlier one |
| TokenLife.BackwardClockRun | src/client/handshake.rs:83-88 | and under one that does it is: killed near its expiry, not replaced because getjwt fails, presented by an earlier clock |
| TokenLife.TokenOwner.Authenticate | src/client/handshake.rs:80-102 | after every handshake no refused or closed token is held, and the held token stays apart from every spent one |
| TokenLife.RunRefresher | src/client/refresh.rs:40-74 | the session is dropped at the first three failures in a row and never otherwise |
| Supervisor.Error.InStep | src/error.rs:170-175 | adding the step name keeps what the supervisor dispatches on |
| Supervisor.OpenedTracks | src/client/io.rs:411-426 | opening a session sets Connected, then announces it, then resolves ready, each allowed by the trace rules |
| Supervisor.EndTracks | src/client/io.rs:239-250 | ending the run leaves state Closed, ready resolved once and the Closed event last, from any point between sessions |
| Supervisor.SessionTracks | src/client/io.rs:335-511 | after a session the state is Connected only if a stop was seen, and then the outcome is a stop |
| Supervisor.WaitTracks | src/client/io.rs:252-287 | waiting spends one attempt or ends the run with state Closed and the Closed event |
| Supervisor.ReactTracks | src/client/io.rs:184-234 | every reaction to an outcome ends the run properly or leads back to the head of the loop |
| Supervisor.BackoffIs | src/client/reconnect.rs:21-31 | a round that leads to another waits long exactly if its session read close code 4003, 4007 or 4008 or ended with a capacity error; a close code met during the handshake gets the normal wait |
| Supervisor.RunTracks | src/client/io.rs:105-236 | every run is lawful at every point, and while it goes on every round has started a session |
| Supervisor.RunEvents | src/client/io.rs:414-426 | in every run Connected comes at most once and before any Reconnected, ready at most once, Closed only as the last event |
| Supervisor.TerminatedRun | src/client/io.rs:239-250 | a terminated run has resolved ready exactly once, ends with the only Closed event and leaves the state Closed |
| Supervisor.NoSessionAfterFatal | src/client/io.rs:147-157 | no session starts after a handler panic, a terminal error, or close code 4006 read in an established session |
| Supervisor.SessionAfterDisabled | src/client/io.rs:201-205 | in every run a session follows close code 4006 only if the close was met before that session was announced as connected |
| Supervisor.GoesOnIff | src/client/io.rs:184-287 | from every live state and for every round that meets 4006, the run goes on if and only if a handshake met it, the client was connected before, an attempt is left and no stop comes while it waits |
| Supervisor.BeginsIff | src/client/io.rs:105-170 | a round starts a session if and only if the run is not over, no stop is seen, no callback has panicked and the command channel is held |
| Supervisor.SessionAfterDisabledIff | src/client/io.rs:184-287 | so the round behind one that meets 4006 starts a session if and only if, besides, no panic hides behind the error and no stop comes before it |
| Supervisor.SessionAfterEarlyClose | src/client/handshake.rs:290-292 | and then it does, for every attempt limit but one: behind any close code met while reconnecting another session starts |
| Supervisor.KnocksOn | src/client/handshake.rs:290-292 | without an attempt limit this goes on for any number of rounds: n such closes, n + 1 sessions, and the run not over |
| Supervisor.NotConnectedBetween | src/client/io.rs:471-477 | at no point between sessions is the state Connected unless a stop was seen before |
| Supervisor.SessionBound | src/client/reconnect.rs:6-8 | with m > 0 attempts and k sessions of at least 60 seconds at most 1 + m(k + 1) sessions start |
| Supervisor.RunEnds | src/client/io.rs:174-182 | a run offered more than m(k + 1) rounds has ended |
| Supervisor.SupervisorTask.RunSupervisor | src/client/io.rs:105-236 | for every sequence of surroundings: ended means state Closed, ready resolved exactly once and Closed as the only last event; no session starts after something fatal; the number of sessions is bounded |

## Left out

- TCP, TLS, HTTP and the WebSocket layer: only their outcomes are inputs (frames, failed or timed-out writes, refused sessions).
- AES rounds, RSA, SHA and HMAC: the block cipher is an arbitrary invertible function, hashes are inputs.
- JSON parsing: an LL envelope is a status with optional fields; `read_valid_until` and the numeric forms it accepts are not modelled.
- Metrics, logging, redaction, `Debug` and `Display` output, and the round-trip time taken from `sent_at`.
- `LoxHasher`, zero-copy borrowing and alignment, capacity guesses, and the typed accessors of table entries.
- File permissions, the temporary file and rename, and file-system errors of the token store; `token_binding` is not modelled, bindings are arbitrary strings without line breaks.
- Ping, pong and continuation frames, and fragmented messages.
- tokio scheduling: fairness is not assumed and no liveness beyond the stated bounds is claimed.
- Integer widths: counters, attempts and deadlines are unbounded; `usize` is taken as 64 bits, so record lengths do not wrap.
- `run` of the writer as one loop: its order of decisions is the writer's positions in `Correlation`, its functions are the methods of `Session`.
- The pause lengths of `wait_reconnect`: the kind of backoff is recorded in the trace, the sleep is one step that a stop may end.
- `HandlerGuard` as an object: its sticky `panicked` flag is a variable of the supervisor, in `Framing` the number of callbacks that return before one panics is an input.
- TokenStore.SharedState.RestoreToken: adding the expiry to the epoch does not wrap at 64 bits, and a client without a store is not modelled.
- The facade (`mod.rs`), preflight and certificate pinning: a session they prevent is a session that is not made.

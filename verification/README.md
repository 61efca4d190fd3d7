# Verified model of the Wand render daemons

Two resident daemons own the processes that Wand runs. One owns PTY sessions; the other owns structured
runs with two pipes each. Clients come and go, and reconnect with `attach`. This project models the part
that must not lose anything on the way: bytes to text, text to numbered chunks, bounded windows,
broadcast events, replay after a reconnect, and the terminal snapshot kept beside the stream. It proves
the following about it.

- **Streaming recognisers** (`Scanner`, `Utf8`, `Marker`, `DecMode`): results never depend on how the
  input is cut. The marker stripper is the exception, with the exact condition for it.
- **Bounded structures** (`Windows`, `Bounds`, `ListSnapshot`, `SnapshotReader`, `Frames`): each refines a
  simple definition: the last n characters, the longest run of newest entries that fits, the longest prefix
  that fits, the frames of a byte stream. The JSON that is measured reads back whole.
- **Half-read sequences** (`TerminalParser`, `Escapes`, `HalfRead`): what a terminal is in the middle of,
  by the rules of ECMA-48 and not by those of the code; exactly when trimming leaves a terminal there, and
  exactly when a checkpoint loses what it has read halfway.
- **One session** (`Terminal`, `Session`, `SnapshotCache`, `CacheSteps`, `AttachAnswer`, `Reader`): every
  field of the answer to an attach in terms of the inputs; every text and size that they ask for is in the
  baseline or pending, once and in order; when checkpoints are taken and when the screen is given up; a
  client can go on from any answer; faults of the terminal library never reach the journal.
- **Sessions and connections** (`Resume`, `Deliveries`, `Broadcasts`, `Hub`): no gap after a resume over
  every interleaving of append, publish, authentication, attach, slow clients and exit; attaches are
  answered, Exit reaches everybody, only the slow are dropped; when data can follow Exit.
- **Bytes to clients** (`EndToEnd`): what a client holds, the output window and the screen are functions of
  the bytes read; the snapshot of an attach and the events beyond its answer are the live screen.
- **Lifecycles** (`PtyRegistry`, `StructuredLog`, `PipeReader`, `StructuredRuns`, `StructuredResume`):
  admission and draining under locks, in both directions: what may not happen does not, and what is asked
  for is done; replay paging that terminates and is complete, run events in order, and no gap over any
  number of pages, the live events after them, and a reconnect.
- **Dates** (`CivilDate`): civil-from-days for every integer day.

## How the model is built

Code that updates its state in place is a class here, with methods that have the loops of the source,
each proved against a specification function. What the source promises is then proved about these
functions. Threads that meet under locks are state machines: one action for each critical section or
atomic access, and a run is any sequence of actions. An action that cannot be taken does nothing, so the
theorems about runs range over all sequences.

The environment appears as parameters or actions: the bytes read and where reads are cut, polls, the
clock, when a child exits, when a wait times out, which connection closes, and which call into the
terminal library fails and what it leaves of the screen. The terminal itself is a record of functions
(`Terminal.Vt`). A theorem that needs a law of it says so: `Streams` (bytes may come in parts),
`KeepsSize`, `Respected` (an equivalence of screens that operations keep), `RestoresBase` (the data of the
last checkpoint restores its screen), `RestoresFinished` (it does unless what had been shown ends inside
an escape sequence), and `RendersAutowrap` (a rendering sets autowrap as asked; `SequenceDecides` shows it
for any that ends as those of the code do).

Text is a sequence of Unicode scalars, bytes are integers below 256, counters are unbounded. RFC 3629
section 4 fixes UTF-8, RFC 8259 sections 6 and 7 the numbers and strings of JSON, ECMA-35 section 13 escape
sequences, ECMA-48 sections 5.4 and 5.6 control sequences and strings, and RFC 3339 section 5.7 with
Appendix C the calendar.

## Where the code does less than its comments say

The model follows the code, and lemmas show what that comes to.

- "Baseline and pending are the screen" (crates/wand-render/src/session.rs:192-196) needs checkpoints
  that restore: the rendering leaves out what the parser has read of an escape sequence, and the normal
  screen behind the alternate one. `ClientSeesScreen` has this as the hypothesis `RestoresBase`, and
  `SnapshotAgreesWithScreen` holds without it. `FinishedIsSeen` turns it into a condition on the bytes
  shown by the last checkpoint, for every terminal with `RestoresFinished`; `HalfReadEscapeIsLost` shows
  for one of them that the condition is exact. `ResetIsLost` and `ColourIsLost` are runs that fail it.
  Autowrap is kept unless a mode sequence is cut there (`ClientHasAutowrap`, `HalfReadModeIsLost`).
- Exit follows all data (crates/wand-render/src/session.rs:657) if and only if the reader is done when the
  exit thread stops waiting, at the latest after 200 ms: `ExitIsLast` and `DataCanFollowExit`.
- A resize adds to pending without looking at the budget (crates/wand-render/src/session.rs:526):
  `ResizeKeepsBudget` and `ResizesPileUp`.
- The marker stripper looks at the first prefix in its buffer only (crates/wand-render/src/marker.rs:43),
  so a malformed own marker in front of another can make the cutting matter: `CuttingTheorem` has the
  exact condition for every ASCII token, `MalformedHidesGood` an input for each that has no delimiters.
- The stripper counts the start of a marker that it holds back in characters and cuts it off in bytes
  (crates/wand-render/src/marker.rs:68-72): `BytesAgreeForAscii`. For a token that is not ASCII the slice can
  panic, or show a part of the marker.
- Trimming promises that a terminal does not wait for the end of a sequence
  (crates/wand-render/src/snapshot.rs:145-149). It tests completeness past its own cut, takes ESC with any
  second byte for a sequence, and ends every string at BEL. `TrimmedIsFinished` has the exact condition for
  a terminal to be left inside a sequence. `TrimmedStringIsUnfinished`, `TrimmedEscapeIsUnfinished`,
  `TrimmedDeviceStringIsUnfinished` and `TrimmedPairIsUnfinished` are inputs that meet it. The reset appended
  to data that has been cut makes up for all of them: `BoundedIsFinished`.
- A page does not allow one oversized chunk (crates/wand-structured-renderd/src/lib.rs:55-58):
  `PageStalls` and `StdoutTakesAllRoom`. That replay still ends is due to the floor of 16384 bytes in `attach`.
- Structured `forget` is two critical sections (crates/wand-structured-renderd/src/lib.rs:239-243). Only
  the second changes the registry, so only that one is an action.

## Model

| member | source | states |
|---|---|---|
| Utf8.EncodeInvertsValue | crates/wand-render/src/utf8.rs:20-52 | A well-formed sequence, as the grammar of RFC 3629 section 4 has it, is the encoding of the scalar it stands for |
| Utf8.ValueInvertsEncode | crates/wand-render/src/utf8.rs:20-52 | The encoding of every scalar is well formed and stands for that scalar |
| Utf8.NextMeaning | crates/wand-render/src/utf8.rs:30-48 | One validation step finds a scalar exactly when the input starts with a well-formed sequence, and waits exactly when the input is a proper prefix of one |
| Utf8.IncrementalUtf8Decoder.Push | crates/wand-render/src/utf8.rs:20-52 | The loop puts out the decoding of pending and new bytes together and leaves the rest pending |
| Utf8.IncrementalUtf8Decoder.DiscardTail | crates/wand-render/src/utf8.rs:54-57 | At the end of a stream nothing is left pending |
| Utf8.DecoderIsChunkIndependent | crates/wand-render/src/utf8.rs:20-52 | For any bytes and any cutting, all output and the final pending bytes are those of one push of the whole |
| Utf8.AnyCutDecodes | crates/wand-render/src/utf8.rs:20-52 | Any cutting of the encoding of a text gives back the text with nothing pending |
| Utf8.PendingIsAPrefix | crates/wand-render/src/utf8.rs:10-12 | What is pending is at most three bytes and a proper prefix of a well-formed sequence |
| Utf8.PushSize | crates/wand-render/src/utf8.rs:20-52 | A push of n bytes yields at most n + 3 bytes of text |
| Windows.FitIsLongest | crates/wand-render/src/bounds.rs:126-142 | Dropping oldest entries until the rest fits keeps the longest run of newest entries that fits |
| Windows.FitEachIsFit | crates/wand-render/src/bounds.rs:126-142 | Dropping after every push comes to the same as dropping once at the end |
| Bounds.TextWindow.Push | crates/wand-render/src/bounds.rs:42-57 | The window becomes the last max_chars scalars of what it held and the new chunk |
| Bounds.TextWindow.Trim | crates/wand-render/src/bounds.rs:59-82 | The trimming loop, segment by segment, leaves exactly the last max_chars scalars |
| Bounds.TextWindowIsTail | crates/wand-render/src/bounds.rs:42-82 | After any pushes the window is the last max_chars scalars of the concatenation, however it was cut |
| Bounds.ChunkWindow.Push | crates/wand-render/src/bounds.rs:126-142 | The window becomes the longest run of newest chunks that fits, the new chunk included and cut to its end if it is too long |
| Bounds.ChunkWindowIsFit | crates/wand-render/src/bounds.rs:126-142 | After any pushes the window is the longest run of newest chunks that fits |
| Bounds.KeptTextIsSuffix | crates/wand-render/src/bounds.rs:126-142 | The chunks kept concatenate to a suffix of everything pushed, within max_chars |
| Marker.FindText | crates/wand-render/src/marker.rs:43-43 | Finds the first occurrence of the prefix, if there is one |
| Marker.LongestPrefixSuffix | crates/wand-render/src/marker.rs:79-91 | The downward search finds the longest end of the text that is a proper prefix of the marker prefix |
| Marker.MarkerStripper.constructor | crates/wand-render/src/marker.rs:23-29 | A stripper starts with the prefix of its token, nothing pending and not completed |
| Marker.MarkerStripper.Consume | crates/wand-render/src/marker.rs:36-76 | One chunk: what is shown, what is held back and whether the marker has been found are as specified, or None where slicing inside a character panics |
| Marker.BytesAgreeForAscii | crates/wand-render/src/marker.rs:68-72 | The held-back start of a marker is counted in characters and cut off in bytes: for every input this is what it should be if and only if the token is ASCII |
| Marker.NothingIsLost | crates/wand-render/src/marker.rs:36-76 | For any token and any chunks without a panic, which an ASCII token never causes: what is shown and held back is the input until completion, and afterwards the input without exactly one own marker that has a status of one to three digits |
| Marker.CutsMakeNoDifference | crates/wand-render/src/marker.rs:36-76 | For an ASCII token, as the source strips in bytes: if the first own marker is unterminated or well formed, the result does not depend on the cutting |
| Marker.CuttingTheorem | crates/wand-render/src/marker.rs:43-73 | For every ASCII token, one that contains a delimiter included: some cutting changes what is shown, or whether the marker is recognised, if and only if the first own marker is malformed and some cut behind it brings up one that is not |
| Marker.PlainCondition | crates/wand-render/src/marker.rs:43-73 | For a token without delimiters the condition comes to this: the first own marker is malformed, and one that starts behind it is not |
| Marker.MalformedHidesGood | crates/wand-render/src/marker.rs:43-73 | Counterexample for every ASCII token without delimiters: a malformed marker and then a good one, at once, hide the exit, which is recognised when the input is cut between them |
| Marker.PlainTokenIsDelimiterFree | crates/wand-render/src/marker.rs:13-27 | The prefix of a token without the two delimiter characters has them only in front |
| Marker.MarkerIsRecognised | crates/wand-render/src/marker.rs:36-76 | However the text is cut: its first own marker, if it has a status of one to three digits, is taken out, all else is shown, and the exit is recognised |
| Marker.OtherTextIsShown | crates/wand-render/src/marker.rs:67-76 | Text without an own prefix is all shown, but for the longest end of it that is a proper start of one |
| Marker.OnlyMarkersAreHeld | crates/wand-render/src/marker.rs:36-76 | Whatever has arrived, what is held back is the start of an own marker, or a whole prefix with no end so far |
| Escapes.EscapeEnd | crates/wand-render/src/snapshot.rs:169-202 | The scan of one escape sequence, with its loops, returns the length that the specification gives |
| Escapes.EscapeLengthMeans | crates/wand-render/src/snapshot.rs:169-202 | That length is found exactly when the input starts with a complete sequence of that length: a control sequence of section 5.4 of ECMA-48, a string up to its first terminator, or a sequence of two units |
| Escapes.TrimIncompleteEscape | crates/wand-render/src/snapshot.rs:150-165 | The backward loop terminates on any bytes and returns the specified cut |
| Escapes.CutMeans | crates/wand-render/src/snapshot.rs:150-165 | No sequence from the cut on is complete, and the last one in front of it is complete in the whole input |
| TerminalParser.FinishedMeans | crates/wand-render/src/snapshot.rs:145-149 | A terminal that has read some data waits for the end of a sequence if and only if there is an ESC and what follows the last one neither aborts nor closes what it starts |
| TerminalParser.ClosesIsGround | crates/wand-render/src/snapshot.rs:145-149 | The states of the parser, which know nothing of the scan for trimming, and the condition in terms of what follows ESC agree on every input |
| Escapes.TrimmedIsFinished | crates/wand-render/src/snapshot.rs:150-165 | A terminal that has read the trimmed data is outside of any escape sequence if and only if the last sequence that the trimming takes for complete is not left open: not aborted, and running past the ESC after it, or a string that BEL does not end, or ESC with a second unit that ends nothing and no end after it |
| Escapes.TrimmedStringIsUnfinished | crates/wand-render/src/snapshot.rs:159-161 | Counterexample: a BEL behind the cut completes a string that the cut leaves unfinished |
| Escapes.TrimmedEscapeIsUnfinished | crates/wand-render/src/snapshot.rs:159-161 | Counterexample: of two ESC in a row the first counts as complete and is left |
| Escapes.TrimmedDeviceStringIsUnfinished | crates/wand-render/src/snapshot.rs:183-197 | Counterexample: a device control string with a BEL in it counts as complete, while a terminal waits for ST |
| Escapes.TrimmedPairIsUnfinished | crates/wand-render/src/snapshot.rs:199-202 | Counterexample for every second unit that ends nothing: an intermediate as in the two bytes ESC and opening parenthesis, a control other than CAN and SUB, or anything above 0x7E |
| Escapes.CutsAtTokenBoundary | crates/wand-render/src/snapshot.rs:150-202 | Any prefix of a stream of ESC-free text and escape sequences that are whole for a terminal too is trimmed to its last token boundary, and a terminal that has read it is outside of any sequence |
| Escapes.SequencesAreTokens | crates/wand-render/src/snapshot.rs:173-202 | Control sequences, operating system commands up to their BEL, and ESC with a final byte are such tokens; strings up to ST are by definition |
| Escapes.TrimmedTextEncodes | crates/wand-render/src/snapshot.rs:150-165 | Trimming the bytes of a text gives the bytes of the trimmed text |
| ListSnapshot.StringReadsBack | crates/wand-render/src/snapshot.rs:131-133 | A string serialized with the escapes of section 7 of RFC 8259 reads back unchanged, so its serialized length is the right one |
| SnapshotReader.SnapshotReadsBack | crates/wand-render/src/snapshot.rs:131-143 | The text whose length is measured reads back as the snapshot, every number and every pending operation included: nothing is missing from the count |
| SnapshotReader.EscapedIsShortest | crates/wand-render/src/snapshot.rs:131-143 | No other way to write a character in a JSON string is shorter: nothing is counted that could be left out |
| ListSnapshot.SizeOfData | crates/wand-render/src/snapshot.rs:131-143 | The serialized length of a snapshot is additive in the escaped length of its data |
| ListSnapshot.LongestPrefix | crates/wand-render/src/snapshot.rs:106-119 | The binary search finds the longest prefix that fits together with the reset |
| ListSnapshot.TrimText | crates/wand-render/src/snapshot.rs:121-124 | The truncated data is trimmed at an unfinished escape sequence |
| ListSnapshot.BoundForList | crates/wand-render/src/snapshot.rs:92-129 | The whole snapshot if it fits, else the one without pending, else the longest prefix, trimmed and reset |
| ListSnapshot.BudgetIsKept | crates/wand-render/src/snapshot.rs:78-129 | The result always fits, and is None exactly when neither the whole, nor the data without pending, nor the reset alone fits |
| ListSnapshot.BoundedIsFinished | crates/wand-render/src/snapshot.rs:121-149 | Data that has been cut never leaves a terminal in the middle of a sequence, whatever the trimming left, because of the reset; uncut data ends as it did |
| ListSnapshot.BoundedEndsAtToken | crates/wand-render/src/snapshot.rs:106-129 | Data of text and whole escape sequences that has to be cut ends with the last whole token of the longest prefix that fits, and the reset |
| ListSnapshot.ForList | crates/wand-render/src/registry.rs:187-198 | A list response carries at most 64 KiB of JSON per snapshot, bounded in the order of the rules, and none where the session has none |
| DecMode.ParseDecPrivateMode | crates/wand-render/src/snapshot.rs:302-354 | The parsing loop returns what the specification of a private-mode sequence says |
| DecMode.ParseMeaning | crates/wand-render/src/snapshot.rs:302-354 | A mode sequence is reported exactly when the input starts with one of at most 32 bytes, with its length, its final byte, and whether it names mode 7 |
| DecMode.DecModeTracker.constructor | crates/wand-render/src/snapshot.rs:248-254 | Autowrap starts on |
| DecMode.DecModeTracker.ScanChunk | crates/wand-render/src/snapshot.rs:260-287 | One scan leaves the autowrap setting and the tail that scanning tail and chunk together gives |
| DecMode.TrackerIsChunkIndependent | crates/wand-render/src/snapshot.rs:260-287 | Setting and tail depend on the bytes only, not on the cutting, and the tail is shorter than 32 bytes |
| DecMode.AutowrapIsTheLastSetting | crates/wand-render/src/snapshot.rs:260-354 | Autowrap is what the last complete mode sequence naming mode 7 sets, or on if there is none |
| Frames.DecodeInvertsEncode | crates/wand-render-protocol/src/lib.rs:274-305 | Decoding undoes encoding whatever bytes follow; a body that does not parse is an error |
| Frames.PartOfAFrameIsNotEnough | crates/wand-render-protocol/src/lib.rs:289-301 | Every strict prefix of a frame asks for more data |
| Frames.EncodeInvertsDecode | crates/wand-render-protocol/src/lib.rs:289-305 | A frame is only read where its encoding stands |
| Frames.BufferStaysSmall | crates/wand-renderd/src/server.rs:296-315 | A buffer that needs more data is below the limit, so the overflow disconnect is unreachable |
| Frames.FramesAreDecoded | crates/wand-render-protocol/src/lib.rs:289-305 | Frames that follow each other are decoded one by one, up to a part of a frame or one that is refused |
| Frames.HandledUpToClose | crates/wand-renderd/src/server.rs:298-304 | Every frame up to and with the first that closes the connection is handled, and none after it |
| Frames.HandleBuffered | crates/wand-renderd/src/server.rs:296-311 | The inner loop handles every whole frame, stopping at an error or a closed connection |
| Frames.ReadLoop | crates/wand-renderd/src/server.rs:283-318 | The frames handled, and the reason for the end, depend on the bytes received and not on the read boundaries; it never ends by overflow |
| Frames.InterruptionsDoNotMatter | crates/wand-renderd/src/server.rs:287-292 | Interrupted reads can be left out of what arrives: they leave no trace |
| Frames.ReceivedUpToEnd | crates/wand-renderd/src/server.rs:287-292 | What is received is all bytes up to the end of the stream or the first failure, and nothing after it |
| CivilDate.CivilIsRight | crates/wand-render/src/time.rs:29-46 | For every integer day the result is a valid date and days-from-civil gives the day back |
| CivilDate.CivilFollowsTheCalendar | crates/wand-render/src/time.rs:29-46 | The date of the next day is the Gregorian successor (RFC 3339 section 5.7 and Appendix C) |
| CivilDate.CivilStartsAtTheEpoch | crates/wand-render/src/time.rs:29-46 | Day 0 is 1970-01-01, and no other day is |
| CivilDate.CivilInvertsDays | crates/wand-render/src/time.rs:29-46 | Every valid date is found from its day |
| CivilDate.SuccessorIsNextDay | crates/wand-render/src/time.rs:29-46 | Days-from-civil, the reference, counts one more for the next date |
| CivilDate.TimestampIsRight | crates/wand-render/src/time.rs:9-17 | Every second has a timestamp with all fields in range that adds up to that second |
| Terminal.PushRecords | crates/wand-render/src/session.rs:240-249 | Recording text, joined or not, adds exactly its characters and their number |
| Terminal.PushReplays | crates/wand-render/src/session.rs:240-249 | Joining text changes nothing about a replay, for a terminal that takes bytes in any number of parts |
| Session.Inner.constructor | crates/wand-render/src/session.rs:388-414 | The state of a session before its first checkpoint |
| Session.Spawn | crates/wand-render/src/session.rs:382-415 | A session starts with a checkpoint of the blank screen |
| Session.Inner.Fail | crates/wand-render/src/session.rs:221-228 | A fault invalidates the cache and empties it |
| Session.Inner.Checkpoint | crates/wand-render/src/session.rs:197-209 | The screen becomes the baseline and nothing is pending, or a fault gives the cache up |
| Session.Inner.PushPending | crates/wand-render/src/session.rs:240-249 | Text joins adjacent text; the count of characters is kept |
| Session.Inner.Record | crates/wand-render/src/session.rs:703-718 | Number, chunk window, marker and output move on by one chunk; the terminal is not touched |
| Session.Inner.Show | crates/wand-render/src/session.rs:719-725 | The terminal takes the visible text, or fails on it |
| Session.Inner.AppendText | crates/wand-render/src/session.rs:699-740 | One append under the lock, from raw text to event number, is the specified transition |
| Session.Inner.TryResize | crates/wand-render/src/session.rs:510-530 | A resize is refused for a bad size or an exited child, and otherwise recorded and applied |
| Session.Inner.RefreshSnapshot | crates/wand-render/src/session.rs:587-601 | The timer takes a checkpoint when there is something new and nothing was written for 100 ms |
| Session.Inner.SetExited | crates/wand-render/src/session.rs:652-656 | The exit thread records status and code |
| Session.Inner.CheckpointAfterExit | crates/wand-render/src/session.rs:660-664 | The exit thread takes a last checkpoint |
| Session.Inner.State | crates/wand-render/src/session.rs:459-483 | The answer to attach is the specified state, of which AttachTells says every field |
| SnapshotCache.PendingIsSinceCheckpoint | crates/wand-render/src/session.rs:192-249 | In every state of every session with a valid cache the screen shows every visible text and accepted size of the inputs, the baseline renders the screen after the first n of them for some n, and pending is the rest, none lost and none twice, fully joined and correctly counted |
| SnapshotCache.ValidWithoutFaults | crates/wand-render/src/session.rs:211-229 | The cache is given up only when a call into the terminal library fails |
| SnapshotCache.SnapshotAgreesWithScreen | crates/wand-render/src/session.rs:192-209 | In every state with a valid cache, replaying pending from the checkpointed screen gives the screen, at the current cols and rows |
| AttachAnswer.AttachTells | crates/wand-render/src/session.rs:459-483 | Every field of the answer in terms of the inputs: number, output and chunks are those of the texts; status and code those of the last exit; the size is the last good one asked for while the child ran; there is a snapshot exactly while the cache is valid, and it renders the screen after the first n operations and has all the rest pending |
| SnapshotCache.ClientSeesScreen | crates/wand-render/src/session.rs:231-238 | The answer has a snapshot exactly while the cache is valid, and a client that applies it sees what the inputs ask to be shown, provided the data of the last checkpoint restores its screen |
| AttachAnswer.ClientHasAutowrap | crates/wand-render/src/snapshot.rs:59-59 | For a rendering that sets autowrap: in every state of every session the terminal of a client that has applied the snapshot is set as that of the session, if no mode sequence had been read halfway at the last checkpoint |
| AttachAnswer.HalfReadModeIsLost | crates/wand-render/src/snapshot.rs:59-59 | Counterexample: half of a mode sequence in front of the checkpoint and the other half after it turn autowrap off for the session and not for the client |
| AttachAnswer.SequenceDecides | crates/wand-render/src/snapshot.rs:59-59 | Any rendering that ends in the sequence for autowrap sets it so, whatever comes in front, and leaves nothing half-read |
| SnapshotCache.ClientGoesOn | crates/wand-render/src/session.rs:192-238 | From the snapshot in the answer of any moment, given that it restores its baseline, and all that is asked to be shown later, a client has the screen of the session, as long as the session keeps one |
| SnapshotCache.QuietRefreshIsFresh | crates/wand-render/src/session.rs:587-601 | In every session: once nothing has been written for 100 ms the timer leaves a baseline of the current screen with the current autowrap, and nothing pending |
| CacheSteps.TimerWaits | crates/wand-render/src/session.rs:587-601 | In every session the timer takes a checkpoint if and only if something is pending and no visible text has arrived for 100 ms; otherwise it changes nothing |
| CacheSteps.AppendPendsWithinBudget | crates/wand-render/src/session.rs:719-729 | Visible text is added to pending with the baseline untouched as long as that keeps within 256 Ki characters and 1024 operations, and is in a new baseline otherwise |
| CacheSteps.ValidUnlessStruck | crates/wand-render/src/session.rs:211-229 | The snapshot is gone if and only if one of the calls into the terminal library that the inputs led to has failed |
| HalfRead.FinishedIsSeen | crates/wand-render/src/session.rs:192-238 | For every terminal whose rendering restores what it has read unless it is inside a sequence: in every state of every session a client sees the screen if the bytes shown by the last checkpoint do not end inside a sequence |
| HalfRead.HalfReadEscapeIsLost | crates/wand-render/src/session.rs:192-238 | Exact for a terminal that meets all these laws and renders no half-read sequence, as the library does: a client sees the screen if and only if the bytes shown by the last checkpoint do not end inside a sequence |
| HalfRead.LibraryRestores | crates/wand-render/src/session.rs:192-238 | That terminal is one of those of which the first half speaks |
| HalfRead.HalfIsLost | crates/wand-render/src/session.rs:192-238 | For any two texts with the timer between them: the client has nothing of the sequence that the first leaves open |
| HalfRead.ResetIsLost | crates/wand-render/src/session.rs:192-238 | Counterexample run: ESC, the timer, and then the letter c; the terminal of the session has taken the sequence ESC c, that of the client the letter c alone |
| HalfRead.ColourIsLost | crates/wand-render/src/session.rs:192-238 | Counterexample run: half a colour sequence, the timer, and then the other half and a letter; the client has the other half in letters |
| SnapshotCache.FaultIsForever | crates/wand-render/src/session.rs:214-238 | After a fault there is no snapshot, the screen is not updated again and pending stays empty |
| SnapshotCache.JournalDependsOnTexts | crates/wand-render/src/session.rs:699-740 | Numbers, chunks, output and Data events are determined by the appended texts alone |
| SnapshotCache.FaultsDoNotReachTheJournal | crates/wand-render/src/session.rs:211-229 | Two sessions with the same texts and any faults have the same journal and events |
| SnapshotCache.JournalMeaning | crates/wand-render/src/session.rs:703-718 | The journal numbers every text, keeps the newest chunks that fit and the end of the visible text |
| SnapshotCache.AppendEndsWithinBudget | crates/wand-render/src/session.rs:724-727 | Every append that shows anything ends within 256 Ki characters and 1024 operations |
| SnapshotCache.ResizeKeepsBudget | crates/wand-render/src/session.rs:524-530 | A resize keeps the budget if and only if it does not add the operation too many |
| SnapshotCache.ResizesPileUp | crates/wand-render/src/session.rs:524-530 | Counterexample for any n: n resizes leave n operations pending, as nothing checks the budget |
| SnapshotCache.ExitCheckpointIsFinal | crates/wand-render/src/session.rs:659-664 | In every session: after the exit checkpoint the baseline alone is the final screen, with the current autowrap |
| Reader.ReadBatch | crates/wand-render/src/session.rs:97-128 | A batch is the bytes read in order, within the buffer; a later failure loses none; without coalescing it polls nothing, and with it it goes on until the buffer is full, a poll says that there is no more, or a read brings nothing |
| Reader.ReadLoop | crates/wand-render/src/session.rs:608-648 | Everything appended is the decoding of the bytes read, whatever the batching; the loop ends only for a failure, or when there is nothing to read and the session is no longer alive, so with bytes and interruptions only all is read; every text is non-empty and bounded |
| Resume.NextKeepsInv | crates/wand-renderd/src/server.rs:104-159 | Every step of every thread keeps the invariant of queues, answers and publishing |
| Resume.WindowIsSlice | crates/wand-render/src/bounds.rs:126-142 | The chunk window is a run of whole entries at the end of the journal |
| Resume.AnswerIsSlice | crates/wand-render/src/session.rs:459-483 | An attach answer is every entry above afterSeq that the window still had |
| Resume.NoGapAfterAttach | crates/wand-renderd/src/server.rs:357-370 | Over every interleaving, and whatever part of its queue a client has read, the answer and the events beyond it are the journal without a gap from afterSeq, or from where the window starts if it has moved on; on a connection that is still open the queue goes as far as has been published to it |
| Resume.ReconnectMissesNothing | crates/wand-render/src/session.rs:459-483 | A client that loses a connection at any point and attaches on another from where it got to has the journal without a gap, as long as the window still reaches back |
| Resume.EventsAscend | crates/wand-render/src/session.rs:699-740 | Data events are entries of the journal and ascend in every queue |
| Deliveries.JournalIsAppends | crates/wand-render/src/session.rs:699-718 | Over every run the journal is the texts appended, in order |
| Deliveries.QueuesOnlyGrow | crates/wand-renderd/src/server.rs:151-159 | Over every run what is in a queue stays there, in its place |
| Deliveries.AttachIsAnswered | crates/wand-renderd/src/server.rs:357-370 | A client that connects, authenticates and attaches has the state of that moment as the first frame of its queue |
| Deliveries.AnswerWaits | crates/wand-renderd/src/server.rs:142-149 | An answer that has been read waits for its connection whatever else happens, unless it cannot be encoded or the connection closes |
| Deliveries.ExitReachesAll | crates/wand-render/src/session.rs:650-696 | Over every interleaving: once the exit thread is finished, every client that had authenticated when it began to announce the exit has Exit in its queue or has been closed |
| Deliveries.OnlySlowAreDropped | crates/wand-renderd/src/server.rs:104-122 | Over every run: a client whose queue always has room for one more frame, and that nobody closes, is never dropped |
| Deliveries.RetiredIsSilent | crates/wand-render/src/session.rs:574-585 | A session that is retired appends at most the one text whose check has come before, and if its exit has not been announced nobody ever gets Exit |
| Resume.ExitIsLast | crates/wand-render/src/session.rs:650-696 | Every queue gets Exit at most once, and no Data after it unless the wait for the reader timed out |
| Resume.DataAfterATimeout | crates/wand-render/src/session.rs:679-691 | Counterexample: after a timeout a Data event can follow Exit |
| Broadcasts.DataCanFollowExit | crates/wand-render/src/session.rs:650-696 | In every reachable state in which the exit thread has stopped waiting, unless the session is retired: some continuation queues a Data event after Exit if and only if the reader is not done |
| Broadcasts.BroadcastIsTheHubs | crates/wand-renderd/src/server.rs:104-122 | The steps of a broadcast that nothing interrupts serve and drop the same clients as the two loops of the hub |
| EndToEnd.AttachReadsTheSession | crates/wand-render/src/session.rs:459-483 | What an attach of the state machine reads is the state of the session whose texts its journal has: number, and chunks above afterSeq |
| EndToEnd.ClientHoldsEvents | crates/wand-render/src/session.rs:699-740 | Answer and later events of a client are a stretch of the events the session publishes, without a gap |
| EndToEnd.ClientHoldsDecoding | crates/wand-render/src/session.rs:608-648 | The text a client holds is a stretch of the decoding of the bytes read, and all of it for a client that attached from the start and has read everything |
| EndToEnd.AttachIsEnough | docs/render-protocol.md:227-229 | Attach is the authoritative resync: without a launch marker and without resizes, the snapshot read with the answer and the data of every event beyond it give the live screen, if the snapshot restores its baseline |
| EndToEnd.BytesDecide | crates/wand-render/src/session.rs:608-740 | However the bytes were read and gathered: the output window is the end of what their decoding shows, and without resizes a valid screen is that of a terminal given it all at once, provided that no cutting matters to the marker |
| Hub.ConnTable.TrySend | crates/wand-renderd/src/server.rs:151-159 | A frame is queued exactly when the receiver is there, the queue has room and, in the PTY daemon, the connection has not been closed |
| Hub.ConnTable.Disconnect | crates/wand-renderd/src/server.rs:95-102 | The connection is closed and taken out of the list |
| Hub.ConnTable.Broadcast | crates/wand-renderd/src/server.rs:104-122 | Two passes over the list: each authenticated client gets the frame or is closed and dropped, the others are left alone |
| Hub.ConnTable.Publish | crates/wand-structured-renderd/src/main.rs:72-85 | One pass with the effect of the two passes of the other daemon, by its own rule: only a full queue or a gone receiver refuses |
| Hub.NobodyMissesUnnoticed | crates/wand-renderd/src/server.rs:104-122 | An authenticated client that stays has the frame in its queue, and one that does not is closed |
| Hub.RoomIsEnough | crates/wand-renderd/src/server.rs:104-122 | A client stays if and only if it has not authenticated, or its queue is still read and holds fewer than 1024 frames, or 256 in the structured daemon, and, in the PTY daemon, it has not been closed |
| PtyRegistry.NextKeepsInv | crates/wand-render/src/registry.rs:123-174 | Every step of creating, forgetting, exiting and shutting down keeps the invariant |
| PtyRegistry.AtMostTwoHundredRun | crates/wand-render/src/registry.rs:123-174 | At most 200 registered sessions run, and the duplicate branch after the spawn is never taken |
| PtyRegistry.OnlyRemovalRemoves | crates/wand-render/src/registry.rs:232-242 | A registered session goes if and only if it is forgotten, found stale, or cleared with all; no other step removes or replaces it |
| PtyRegistry.ForgetIsAlone | crates/wand-render/src/registry.rs:232-242 | Forgetting one id leaves every other as it was |
| PtyRegistry.SpawnedStays | crates/wand-render/src/registry.rs:156-174 | Over every run: a session that has been spawned is registered under its id, or will be with the next step of its thread, until it is removed |
| PtyRegistry.RegisterRegisters | crates/wand-render/src/registry.rs:158-174 | That step enters it and changes nothing else |
| PtyRegistry.SpawnsAgainOnlyAfterRemoval | crates/wand-render/src/registry.rs:137-174 | Over every run: a PTY is spawned for an id again only after the session of the first has been removed |
| PtyRegistry.CreateSucceeds | crates/wand-render/src/registry.rs:123-174 | A create that nothing interrupts spawns and registers exactly one session, unless it is shutting down, the id is registered, or 200 sessions run |
| PtyRegistry.NothingNewAfterShutdown | crates/wand-render/src/registry.rs:274-276 | Once shutting down is set nothing is registered |
| PtyRegistry.DrainKeepsRunning | crates/wand-render/src/registry.rs:278-296 | Draining removes no running session |
| PtyRegistry.DrainReleasesExited | crates/wand-render/src/registry.rs:278-296 | Draining removes what has exited: afterwards every registered session was running when draining began |
| PtyRegistry.DrainMeansNoneRuns | crates/wand-renderd/src/main.rs:177-213 | When the shutdown loop returns Drain no registered session runs, then or later |
| PtyRegistry.DrainKeepsTheRunning | crates/wand-render/src/registry.rs:274-296 | The first request to drain leaves exactly the running sessions registered |
| PtyRegistry.PollDecides | crates/wand-renderd/src/main.rs:201-206 | A poll while draining ends the daemon if and only if no registered session runs |
| PtyRegistry.NowStops | crates/wand-renderd/src/main.rs:181-200 | A request to stop now, or a second one to drain, ends the daemon with nothing registered |
| StructuredLog.Log.Append | crates/wand-structured-renderd/src/lib.rs:36-47 | The chunk is numbered and appended, and the oldest go until the rest fits 8 MiB |
| StructuredLog.LogIsFit | crates/wand-structured-renderd/src/lib.rs:36-47 | After any appends the log is the longest run of newest chunks within 8 MiB, and truncated exactly when they do not all fit |
| StructuredLog.Log.Page | crates/wand-structured-renderd/src/lib.rs:49-64 | The loop over the chunks returns the specified page and the room left |
| StructuredLog.PageMeaning | crates/wand-structured-renderd/src/lib.rs:49-64 | Chunks run on from the cursor; complete means that none is left; a reset is required exactly outside the log; it stops only at a chunk without room |
| StructuredLog.PageStalls | crates/wand-structured-renderd/src/lib.rs:55-58 | A page alone brings nothing, though incomplete, if and only if the next chunk is larger than its room |
| StructuredLog.StdoutTakesAllRoom | crates/wand-structured-renderd/src/lib.rs:206-217 | Counterexample for any retained stderr: two full reads of stdout use up the smallest response, so the page of stderr is empty and not complete; the next attach brings some of it |
| StructuredLog.RunInner.Attach | crates/wand-structured-renderd/src/lib.rs:206-217 | Both pages share one clamped budget |
| StructuredLog.ResponseIsBounded | crates/wand-structured-renderd/src/lib.rs:211-216 | The chunks of a response are at most 512 KiB |
| StructuredLog.ResponseFillsRoom | crates/wand-structured-renderd/src/lib.rs:211-217 | The chunks of both pages keep to the size asked for, raised to 16384 and at most 512 KiB, and a page is incomplete only for a chunk larger than what is left of that |
| StructuredLog.DecodedFitsPipe | crates/wand-structured-renderd/src/lib.rs:274-286 | A decoded pipe read is at most 8195 bytes |
| PipeReader.ReadPipe | crates/wand-structured-renderd/src/lib.rs:268-293 | The texts appended are what the reads decode to, in order, none empty and each at most 8195 bytes; the thread ends only at the end of the pipe or a failure, so with bytes and interruptions only all is read |
| StructuredLog.AttachAdvances | crates/wand-structured-renderd/src/lib.rs:206-217 | Each attach strictly decreases what is left on the two streams until both are complete |
| StructuredLog.ReplayIsComplete | crates/wand-structured-renderd/src/lib.rs:206-217 | Repeated attach yields every chunk above the cursors once and in order, whatever sizes are asked for |
| StructuredLog.ReplayRebuilds | crates/wand-structured-renderd/src/lib.rs:36-64 | A client that starts from nothing rebuilds both retained logs of an exited run |
| StructuredRuns.RunIsOrderly | crates/wand-structured-renderd/src/lib.rs:163-198 | Over all interleavings of readers and reaper the events of each stream are numbered 1, 2, 3 and so on, and Exit is published once, after all of them |
| StructuredRuns.ExitedRunIsFrozen | crates/wand-structured-renderd/src/lib.rs:177-194 | Once a run is marked as exited its logs never change |
| StructuredRuns.StreamHasAppends | crates/wand-structured-renderd/src/lib.rs:268-293 | Over all interleavings a stream has all texts its reader has appended, in order, and nothing else |
| StructuredRuns.EveryRunCanEnd | crates/wand-structured-renderd/src/lib.rs:163-198 | From every state a run can come to its end with every text published and then Exit |
| StructuredRuns.OneProcessForAnId | crates/wand-structured-renderd/src/lib.rs:115-161 | A process is started only for an id without one, and with a free slot |
| StructuredRuns.SpawnedStays | crates/wand-structured-renderd/src/lib.rs:111-161 | Over every run of the daemon: what is spawned, failed executions included, is registered at once and stays until it is forgotten |
| StructuredRuns.SpawnsAgainOnlyAfterRemoval | crates/wand-structured-renderd/src/lib.rs:111-161 | A process is started for an id again only after its run has been forgotten |
| StructuredRuns.SpawnSucceeds | crates/wand-structured-renderd/src/lib.rs:111-161 | A spawn for an id without a run, with fewer than 8 registered and no draining, starts and registers one |
| StructuredRuns.RemoveIsAlone | crates/wand-structured-renderd/src/lib.rs:237-243 | Forgetting one run touches no other |
| StructuredRuns.OnlyRemoveRemoves | crates/wand-structured-renderd/src/lib.rs:237-243 | No other step removes a run from the registry or replaces it |
| StructuredRuns.EveryRunIsOrderly | crates/wand-structured-renderd/src/lib.rs:163-198 | So it is for every run that the daemon ever starts, failed executions included |
| StructuredRuns.CapacityIsBounded | crates/wand-structured-renderd/src/lib.rs:16-18 | At most 8 runs are registered and they retain at most 128 MiB |
| StructuredRuns.LateListSeesAll | crates/wand-structured-renderd/src/lib.rs:252-257 | A listing that starts after draining is set sees every run that is ever registered from then on |
| StructuredRuns.DrainedStaysDrained | crates/wand-structured-renderd/src/main.rs:293-301 | A running count of 0 read after draining is set stays 0, and so when the main loop leaves because of it |
| StructuredRuns.MainDecides | crates/wand-structured-renderd/src/main.rs:293-301 | Told to drain, the main loop leaves at an uninterrupted look if and only if no registered run is running |
| StructuredResume.NextKeepsInv | crates/wand-structured-renderd/src/main.rs:72-85 | Every step of the readers, the reaper, the hub and the connections keeps the invariant of what each connection has been sent |
| StructuredResume.NoGapAfterAttach | crates/wand-structured-renderd/src/lib.rs:206-217 | Over every interleaving and for both streams: a complete page and the events beyond it are the stream without a gap, and a connection that is still served and has read its frames has got everything published |
| StructuredResume.NoGapOverPages | crates/wand-structured-renderd/src/lib.rs:206-217 | However many pages it takes, each asked for from where the one before ended, on one connection or many: all pages and the events beyond the last of them are the stream without a gap |
| StructuredResume.ReconnectMissesNothing | crates/wand-structured-renderd/src/lib.rs:206-217 | A client that loses its connections and attaches on others from where it had got to has the stream without a gap, unless a reset tells it so |
| StructuredResume.EventsInOrder | crates/wand-structured-renderd/src/main.rs:72-85 | A connection gets the events of a run in the order of their publication from its authentication on, and all of them while it is served |
| StructuredResume.PublishIsTheHubs | crates/wand-structured-renderd/src/main.rs:72-85 | In every reachable state, publishing serves, closes and drops exactly the clients that the one pass of the hub does |
| StructuredResume.AttachIsAnswered | crates/wand-structured-renderd/src/lib.rs:206-217 | A fresh client that attaches is answered with the pages of both logs of that moment |
| StructuredResume.AnswerWaits | crates/wand-structured-renderd/src/main.rs:60-63 | An answer that has been read waits for its connection unless that ends |
| StructuredResume.OnlySlowAreDropped | crates/wand-structured-renderd/src/main.rs:72-85 | Over every run: a client whose queue is always read and never full is never dropped |
| Scanner.ChunkIndependent | crates/wand-render/src/utf8.rs:20-52 | A recogniser whose answers do not change when more input arrives gives the same results however its input is cut |

## Left out

- The terminal library and the rendering of snapshots, scrollback included: functions with stated laws. Of
  its parser only whether a sequence is open is written out, without 8-bit controls and without the
  characters that it waits for halfway (a checkpoint always falls between whole characters).
- Spawning, signals, waiting for children, polling and timers: environment steps.
- Sockets, peer credentials, tokens, token and pid files, path derivation, cleanup: file system and
  operating system behaviour.
- JSON parsing and the request types: a frame body is bytes and a predicate that says which parse; only
  the serialization of snapshots is written out, for its length, with a reader for its compact form.
- Live-byte estimates and the memory part of admission: a create may be refused for any reason.
- Overflow of 64-bit counters, and the types of cols and rows beyond their checked ranges.
- Printing of timestamps: the fields are modelled, the text is not.
- `str::from_utf8` and `str::find` of the standard library: modelled by what they return.
- The maintenance thread's `try_lock` that gives up, and lock poisoning.
- Requests other than attach on a connection, and events of other sessions and runs: one action that queues
  some frame, or drops a connection that has no room for it.
- Hub.ConnTable.Connect: connections are entries of a table here, not shared objects that outlive it, so
  the release of a connection when its last holder lets go is not captured.
- Session.Spawn: requires an ASCII launch token, because for any other the stripper can panic in the middle
  of an append; what a session does after a panic under its lock is not modelled.
- Resume.NoGapAfterAttach: says nothing of a client that asks from beyond the last number given; its answer
  has no chunks.

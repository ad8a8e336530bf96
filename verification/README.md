# Oreka capture models

Dafny models of the state machines by which Oreka's capture daemon turns packets into recordings, and
proofs of what they keep. Each module follows one component of the repository:

- `TapeHandOff`, `AudioTapes`, `ImmediateProcessing`, `CapturePorts`: capture threads hand tapes to the
  one writer thread through a deque, a flag and a semaphore. The protocol is a state machine with one step
  per mutex section or unguarded flag access; the classes are shown to take exactly its steps.
- `ThreadSafeQueue`: the bounded queue and its semaphore, as steps and as classes.
- `IpPackets`, `IpFragmentation`, `IpFragmentTable`, `IpWire`, `SizedBuffers`: reassembly of IP fragments
  (RFC 791 section 3.2).
- `SipFraming`, `SipTcp`, `SafeBuffers`: SIP messages in TCP streams (RFC 3261 sections 18.3 and 20.14).
- `Texts`, `Serializer`, `KeyValueSerializer`: the nested escapings of lists, maps and key-value lines.
- `Iax2Session`, `Iax2Sessions`, `Iax2Parsers`: IAX2 calls, their two indexes, and the in-place parser of
  information elements (RFC 5456 sections 8.1 and 8.6).
- `OggOpusFile`, `OpusHeaders`, `MediaChunkFile`, `G711`: audio framing, the Opus ID header (RFC 7845
  section 5.1), the capture file, and mu-law companding (ITU-T G.711 section 3).
- `OrkLruMap`, `DirectionSelector`, `IpRangeLists`: the bounded map, direction marks, and address blocks
  (RFC 4632 section 3.1).

Code that works in place is a class or a method over its own fields and arrays, proved equal to a function
of the old state; the properties are lemmas about these functions, over all inputs, all runs or all
reachable states. Outputs that go to other components (events, frames, file bytes, dispatched messages)
are logs. Clocks, configuration values, failures of files and the contents of memory behind a buffer are
parameters. `dafny verify dfyconfig.toml` checks everything.

## Where the code does not do what it should

Each of these is proved, with the exact condition under which the code is right where there is one:

- A new call on a port stops the previous tape without waking the writer. Such a tape is never closed if
  the writer had already drained it (`StrandedForEver`, `QuietMeansDone`).
- The writer tests the stop flag in a step of its own after its last look at the queue, so a chunk accepted
  in between stays behind (`LateChunkIsLost`; exactly when: `EveryChunkIsTakenIff`).
- An empty fragment that announces more can complete a datagram that is not whole: at the start, where it
  is the datagram, or right behind the last one (`FirstFragmentCompletes`; exactly when: `FeedSound`).
- A SIP stream is forgotten when a segment happens to end with a message. Messages behind it are lost unless
  a segment begins with one of the listed methods (`OptionsBehindInviteIsLost`; without such segments
  exactly when: `StreamIsDispatched`).
- A call announced with two called legs leaves an index to a stopped session behind
  (`AuthreqNeedsOneInvitee`, `TwoInviteesOutliveTheCall`).
- A short chunk on top of pending samples makes the Opus file count them twice, which spoils the audio
  with the next full frame (`RunIsWholeIffGuarded`, `AudioIsRightIff`).
- A direction report reads the clock twice, so two marks can hold at once (`ExclusiveIffOneReading`).
- Inserting a key that a full LRU map already has evicts another entry (`InsertionResult`).
- Blanks at the ends of list elements, map keys and values are lost (`CsvRoundTrip`, `CsvMapRoundTrip`,
  `FieldsRoundTrip`).

The code is followed where its comments or the standards differ: `RtpTimestamp` falls through all its
cases, so every codec steps by 160; the Opus header parser accepts a table entry equal to the number of
streams plus coupled streams, one more than RFC 7845 allows; `inet_pton4` accepts leading zeros; a prefix
length is read through a 64-bit conversion cut to 32 bits.

## Model

| member | source | states |
|---|---|---|
| TapeHandOff.NoLostWakeUp | orkbasecxx/ImmediateProcessing.cpp:35-78 | in every reachable state of any number of ports and the writer, a tape that is not stopped and has chunks, or a stop the writer has not seen, is in the deque, about to be pushed, or still held by the writer before it looks again (a stranded stop excepted); tapes in the deque always have a permit coming; the queued flag is the number of times the tape is in the deque |
| TapeHandOff.InvNext | orkbasecxx/ImmediateProcessing.cpp:35-78 | every step of every thread keeps the whole invariant, one concern at a time |
| TapeHandOff.InvRun | orkbasecxx/ImmediateProcessing.cpp:80-124 | so does every interleaving of steps |
| TapeHandOff.TapesAreAccountedFor | orkbasecxx/AudioTape.cpp:180-209 | pushes less pops is the queue length, the byte count is the sum of what is queued and stays below the limit plus one chunk, chunks leave in push order, what the file holds is a subsequence of them; a tape is handed off at most once, closed and with bytes |
| TapeHandOff.ChunkIsAcceptedIff | orkbasecxx/AudioTape.cpp:187-200 | in every reachable state a chunk put into a tape is accepted if and only if fewer than three batches of bytes are queued there |
| TapeHandOff.StatesMoveForward | orkbasecxx/AudioTape.cpp:257-376 | a tape only moves forward: from created to active, from either to stopped; histories only grow |
| TapeHandOff.SettlesDown | orkbasecxx/ImmediateProcessing.cpp:80-124 | without new calls, chunks or stops there is a way to a quiet state from every state |
| TapeHandOff.RunsFromInsideAreShort | orkbasecxx/ImmediateProcessing.cpp:80-124 | and no order of steps avoids it: each takes away from a bound on the work left |
| TapeHandOff.QuietMeansDone | orkbasecxx/AudioTape.cpp:360-376 | once quiet, a tape told to stop has stopped if and only if it is not stranded; the chunks a tape accepted were all dealt with if and only if it did not stop with some in its queue; handed off are exactly the stopped tapes with bytes |
| TapeHandOff.StrandedForEver | orkbasecxx/CapturePort.cpp:295-307 | a tape stopped by the next call without a push, while neither queued nor held, is never stopped nor handed off whatever happens later |
| TapeHandOff.RecordingNeverClosed | orkbasecxx/CapturePort.cpp:295-307 | a run that ends so: bytes in an open file, for ever |
| TapeHandOff.EveryChunkIsTakenIff | orkbasecxx/AudioTape.cpp:180-376 | in a run that ends quiet, every chunk any tape ever accepted was dealt with if and only if the writer never saw a stop while chunks were queued since its last look at the queue |
| TapeHandOff.LeavesNothingIff | orkbasecxx/AudioTape.cpp:360-362 | a step leaves no chunk behind in a stopped tape if and only if it is not such a stop test |
| TapeHandOff.CapturingTapeIsOpen | orkbasecxx/AudioTape.cpp:183-183 | the tape of a capturing port is never stopped, so the test of its state outside the mutex loses nothing |
| TapeHandOff.RunLeavesNothingIff | orkbasecxx/AudioTape.cpp:180-376 | the same of every run from a sound state |
| TapeHandOff.LateChunkIsLost | orkbasecxx/AudioTape.cpp:257-376 | such a run: a chunk accepted by an open tape stays behind in it |
| TapeHandOff.StoppedIsFinal | orkbasecxx/AudioTape.cpp:257-257 | such a chunk never leaves, in any continuation |
| TapeHandOff.WriterTurn | orkbasecxx/AudioTape.cpp:257-379 | with no port in between, the steps of the writer's turn are one write of the tape, and it is handed off exactly when that left it ready |
| ImmediateProcessing.ImmediateProcessing.Push | orkbasecxx/ImmediateProcessing.cpp:59-78 | on real tapes: the two steps of the machine that put a tape in the deque and release the semaphore, once per tape |
| ImmediateProcessing.ImmediateProcessing.Pop | orkbasecxx/ImmediateProcessing.cpp:35-57 | on real tapes: acquiring and popping, and the tape it returns is the one the machine holds |
| ImmediateProcessing.ImmediateProcessing.Handle | orkbasecxx/ImmediateProcessing.cpp:108-138 | on real tapes: the machine's steps from the drain to the hand-off, and a tape handed off goes to the chain if and only if it is long enough and to be kept, else is deleted |
| CapturePorts.CapturePort.AddAudioChunk | orkbasecxx/CapturePort.cpp:277-283 | in place: on a capturing port a tape that takes chunks gets the chunk at the end of its queue unless three batches of bytes are queued, one permit is added and the tape is in the deque; else nothing happens |
| CapturePorts.CapturePort.Stop | orkbasecxx/CapturePort.cpp:325-338 | in place: the port stops capturing, its tape is told to stop and is in the deque, one permit is added |
| CapturePorts.StopTells | orkbasecxx/CapturePort.cpp:325-338 | what the machine's steps of a stop leave, field by field; in a sound state the tape is then in the deque |
| CapturePorts.ChunkTells | orkbasecxx/CapturePort.cpp:277-283 | what its steps of a chunk leave |
| CapturePorts.CapturePort.TakeStopSteps | orkbasecxx/CapturePort.cpp:325-338 | a stop on the real objects is the run of these steps |
| CapturePorts.CapturePort.TakeChunkSteps | orkbasecxx/CapturePort.cpp:277-283 | so is a chunk |
| CapturePorts.CapturePort.Start | orkbasecxx/CapturePort.cpp:294-307 | a start makes a new tape and tells the old one to stop without pushing it |
| AudioTapes.WriteAllEmpties | orkbasecxx/AudioTape.cpp:211-379 | an undisturbed write empties the queue, stops the tape exactly when that was asked for, and leaves it ready exactly when its file has bytes |
| AudioTapes.DrainWritesQueue | orkbasecxx/AudioTape.cpp:257-358 | without write errors the file grows by the whole queue, in order, if and only if the chunks before the last do not yet fill it to its limit |
| AudioTapes.EnqueueTakesIff | orkbasecxx/AudioTape.cpp:187-200 | a chunk is taken if and only if fewer than 3 * 1024 bytes a KB of batch are queued; otherwise only the count of rejections changes |
| AudioTapes.AppendWritesIff | orkbasecxx/AudioTape.cpp:318-357 | a chunk is written if and only if the file is less than 1 KB past its limit and writing does not fail |
| AudioTapes.EnqueueCounted | orkbasecxx/AudioTape.cpp:180-209 | the queue's counters and its history stay in step when a chunk is pushed or rejected |
| AudioTapes.DequeueCounted | orkbasecxx/AudioTape.cpp:262-275 | and when one is taken |
| AudioTapes.AppendRecorded | orkbasecxx/AudioTape.cpp:318-357 | each chunk taken is written, refused for size or counted as an error |
| AudioTapes.AudioTape.AddAudioChunk | orkbasecxx/AudioTape.cpp:180-209 | in place: a tape not stopped takes the chunk if and only if fewer than three batches of bytes are queued |
| AudioTapes.AudioTape.Write | orkbasecxx/AudioTape.cpp:257-379 | the drain loop and the stop test in place |
| AudioTapes.AudioTape.IsReadyForBatchProcessing | orkbasecxx/AudioTape.cpp:1234-1242 | answers true once, then not again |
| IpFragmentation.ReassemblyIsOrderIndependent | orkaudio/audiocaptureplugins/voip/IpFragmentation.cpp:94-134 | for every cut of a datagram, every order of arrival and every repeat before the end: nothing is dropped, it is complete exactly when all have arrived, and it is the first fragment's header with the new length followed by the payload |
| IpFragmentation.AnyOrderReassembles | orkaudio/audiocaptureplugins/voip/IpFragmentation.cpp:94-134 | the same from the middle of a delivery: what is stored is the sorted selection of what has been seen |
| IpFragmentation.FeedSound | orkaudio/audiocaptureplugins/voip/IpFragmentation.cpp:94-134 | whatever fragments arrive, dropped and complete exclude each other, and a complete datagram is finished (strictly sorted, contiguous from 0, ended by the highest, joined) if and only if no empty fragment that announces more sits at its end |
| IpFragmentation.PayloadsFinish | orkaudio/audiocaptureplugins/voip/IpFragmentation.cpp:94-134 | so fragments that all carry a payload give a finished one |
| IpFragmentation.AddFragmentSound | orkaudio/audiocaptureplugins/voip/IpFragmentation.cpp:94-134 | one fragment keeps that |
| IpFragmentation.FirstFragmentCompletes | orkaudio/audiocaptureplugins/voip/IpFragmentation.cpp:97-127 | exactly when a first fragment ends its datagram |
| IpFragmentation.CompleteIsFinished | orkaudio/audiocaptureplugins/voip/IpFragmentation.cpp:115-127 | which of the datagrams whose sizes add up are finished |
| IpFragmentation.ForwardAccepts | orkaudio/audiocaptureplugins/voip/IpFragmentation.cpp:49-69 | the sequential pass drops nothing only if the fragments are contiguous, the 16-bit length notwithstanding, and then it has joined them |
| IpFragmentation.ForwardJoins | orkaudio/audiocaptureplugins/voip/IpFragmentation.cpp:49-69 | and contiguous fragments it joins |
| IpFragmentTable.IdsAreSeparate | orkaudio/audiocaptureplugins/voip/IpFragmentation.cpp:182-201 | the datagrams of one id come out as if no other id had any traffic, as long as no purge finds its entry too old |
| IpFragmentTable.AloneReassembles | orkaudio/audiocaptureplugins/voip/IpFragmentation.cpp:182-201 | one id's fragments in any order give one datagram, at its last missing fragment, and an empty entry |
| IpFragmentTable.DatagramSurvivesTraffic | orkaudio/audiocaptureplugins/voip/IpFragmentation.cpp:157-201 | both together: a datagram cut and delivered in any order among any other traffic, and purges that spare it, comes out whole, once |
| IpFragmentTable.HandleHealthy | orkaudio/audiocaptureplugins/voip/IpFragmentation.cpp:189-199 | every entry kept is sound and still under way, so an entry is erased at most once a call, and what is handed out is finished if and only if no empty fragment that announces more sits at its end |
| IpFragmentTable.HandleFinishes | orkaudio/audiocaptureplugins/voip/IpFragmentation.cpp:189-199 | so it is while all fragments carry a payload |
| IpFragmentTable.PurgeTells | orkaudio/audiocaptureplugins/voip/IpFragmentation.cpp:163-180 | a minute after the last check the entries not heard of for a minute go, and no others |
| IpWire.WireReads | orkaudio/audiocaptureplugins/common/PacketHeaderDefs.h:56-68 | what the accessors read of a fragment given byte by byte: the position counted in units of eight, the more-fragments bit, lengths and id |
| IpWire.PayloadComesBack | orkaudio/audiocaptureplugins/voip/IpFragmentation.cpp:94-134 | a payload cut at multiples of eight and written in fragments byte by byte: in any order and with any repeats nothing is dropped, it is complete exactly when every piece has come, and is then the payload under the first header with the whole length |
| IpWire.PayloadSurvivesTraffic | orkaudio/audiocaptureplugins/voip/IpFragmentation.cpp:157-201 | the same through the table, among any other traffic and purges that spare it |
| IpFragmentTable.ForwardSequentialAlgorithm.AddFragment | orkaudio/audiocaptureplugins/voip/IpFragmentation.cpp:49-79 | the pass in place, on the growing buffer |
| IpFragmentTable.WaitAllAndSortAlgorithm.AddFragment | orkaudio/audiocaptureplugins/voip/IpFragmentation.cpp:94-134 | insertion, counters and the pass in place |
| IpFragmentTable.IpFragments.HandleIpFragment | orkaudio/audiocaptureplugins/voip/IpFragmentation.cpp:157-201 | the table of real reassemblies in place, with the purge |
| IpPackets.SetPacketLenReads | orkaudio/audiocaptureplugins/common/PacketHeaderDefs.h:68-76 | the length written is the one read back, in 16 bits, and the header length stays |
| SizedBuffers.SizedBuffer.Append | orkbasecxx/SizedBuffer.cpp:43-52 | appending grows the contents by exactly the bytes given |
| SizedBuffers.SizedBuffer.Write | orkbasecxx/SizedBuffer.cpp:47-52 | a write changes its own bytes and no others, and grows the buffer when it must |
| SizedBuffers.SizedBuffer.Resize | orkbasecxx/SizedBuffer.cpp:54-61 | a resize keeps as much as fits |
| SizedBuffers.SizedBuffer.Reset | orkbasecxx/SizedBuffer.cpp:34-41 | a reset leaves the bytes given and nothing else |
| SizedBuffers.WritesElsewhereKeep | orkbasecxx/SizedBuffer.cpp:47-52 | a write leaves what an earlier one put elsewhere |
| SipTcp.SegmentationIndependence | orkaudio/audiocaptureplugins/common/SipTcp.cpp:309-327 | however a stream is cut into segments, feeding them dispatches the messages, and stops at the offset, of one parse of the whole |
| SipTcp.MessagesSurviveSegmentation | orkaudio/audiocaptureplugins/common/SipTcp.cpp:201-233 | whole messages cut anywhere come out as these messages, in order, with nothing left |
| SipTcp.WrittenMessagesSurviveSegmentation | orkaudio/audiocaptureplugins/common/SipTcp.cpp:201-233 | for streams of written messages, with bodies of any length |
| SipTcp.WrittenMessagesAreDispatched | orkaudio/audiocaptureplugins/common/SipTcp.cpp:235-339 | and through the table: they come out as written if and only if no whole message follows the first segment that ends exactly with one |
| SipTcp.StartsMessageIff | orkaudio/audiocaptureplugins/common/SipTcp.cpp:262-276 | the beginnings that start a message, and the length a payload needs for it |
| SipTcp.DuplicateIsDropped | orkaudio/audiocaptureplugins/common/SipTcp.cpp:245-260 | a segment not behind the start of a stored stream of its connection changes nothing |
| SipTcp.WalkKeepsIff | orkaudio/audiocaptureplugins/common/SipTcp.cpp:309-337 | kept are exactly the streams with bytes left that are less than a minute old |
| SipTcp.StreamIsDispatched | orkaudio/audiocaptureplugins/common/SipTcp.cpp:235-339 | the same through the table: for a connection whose segments follow in sequence, among stored streams of any other connections, the messages of the whole stream are dispatched if and only if no whole message follows the first segment that ends exactly with one |
| SipTcp.UncutStreamIsDispatched | orkaudio/audiocaptureplugins/common/SipTcp.cpp:235-339 | so they are when no segment but the last ends exactly with a message |
| SipTcp.TrackedStream | orkaudio/audiocaptureplugins/common/SipTcp.cpp:311-336 | the same for a stream already stored |
| SipTcp.WalkIsLocal | orkaudio/audiocaptureplugins/common/SipTcp.cpp:311-338 | a segment only concerns the streams of its own connection |
| SipTcp.CutAtMessageEndLosesRest | orkaudio/audiocaptureplugins/common/SipTcp.cpp:329-332 | when a continuation segment ends exactly with a message the stream is forgotten, and later ones hand on nothing as long as none begins with a listed method |
| SipTcp.MessageBehindCutIsLost | orkaudio/audiocaptureplugins/common/SipTcp.cpp:278-336 | a whole message of another method, in a segment of its own behind a complete one, is lost, though one parse would find it |
| SipTcp.OptionsBehindInviteIsLost | orkaudio/audiocaptureplugins/common/SipTcp.cpp:262-336 | so is an OPTIONS behind an INVITE, byte for byte |
| SipFraming.ZeroConfines | orkaudio/audiocaptureplugins/common/SafeBuffer.cpp:51-73 | the closing zero of the buffer keeps every search inside it |
| SipFraming.ParseInBuffer | orkaudio/audiocaptureplugins/common/SipTcp.cpp:201-233 | so a parse gives the same whatever lies in memory behind the buffer |
| SipFraming.ParseContinues | orkaudio/audiocaptureplugins/common/SipTcp.cpp:201-233 | parsing more bytes is parsing the fewer and going on where that stopped |
| SipFraming.DecidedStays | orkaudio/audiocaptureplugins/common/SipTcp.cpp:206-229 | an end found, or a bad length found, is found again with more bytes |
| SipFraming.MessagesComeBack | orkaudio/audiocaptureplugins/common/SipTcp.cpp:201-233 | a concatenation of messages parses into these messages |
| SipFraming.BareIsMessage | orkaudio/audiocaptureplugins/common/SipTcp.cpp:206-229 | a head, the length header with 0 and the blank line are one message |
| SipFraming.WrittenIsMessage | orkaudio/audiocaptureplugins/common/SipTcp.cpp:206-229 | so are, for every body of up to INT_MAX bytes, a head, the length header in any case but for its C, the decimal length of the body, more headers, the blank line and the body |
| SipFraming.WrittenMessagesComeBack | orkaudio/audiocaptureplugins/common/SipTcp.cpp:201-233 | a stream of such messages parses into them |
| SipFraming.LengthIsRead | orkaudio/audiocaptureplugins/common/SipTcp.cpp:213-213 | the number read is the number written |
| SipFraming.MatchIgnoresCase | orkaudio/audiocaptureplugins/common/SipTcp.cpp:27-37 | what a match is, letter by letter |
| SipFraming.MemFindAfter | orkaudio/audiocaptureplugins/common/SipTcp.cpp:27-37 | the search loop; a result is the end of a match |
| SipFraming.ParseSipStream | orkaudio/audiocaptureplugins/common/SipTcp.cpp:201-233 | the loop over messages ends, never passes the end, and is the parse |
| SipTcp.SipTcpStream.Receive | orkaudio/audiocaptureplugins/common/SipTcp.cpp:323-325 | appending to the real buffer and parsing from the saved offset |
| SipTcp.SipTcpStreams.TrySipTcp | orkaudio/audiocaptureplugins/common/SipTcp.cpp:235-339 | the list of streams in place: duplicate test, start, continuation, expiry |
| SafeBuffers.SafeBuffer.Add | orkaudio/audiocaptureplugins/common/SafeBuffer.cpp:51-73 | the contents grow by exactly the bytes given, with the zero behind them |
| SafeBuffers.SafeBuffer.Store | orkaudio/audiocaptureplugins/common/SafeBuffer.cpp:29-49 | the contents are exactly the bytes given, with the zero behind them |
| Serializer.EscapeRoundTrip | orkbasecxx/serializers/Serializer.cpp:405-503 | each of the three escapings is undone by its inverse, for every text |
| Serializer.EscapeProtects | orkbasecxx/serializers/Serializer.cpp:405-474 | an escaped text holds none of the characters it protects but the percent sign |
| Serializer.EscapeOfChar | orkbasecxx/serializers/Serializer.cpp:405-474 | what each escaping writes for each character |
| Serializer.UnescapeOfCode | orkbasecxx/serializers/Serializer.cpp:425-503 | what is read for each letter behind a percent sign; others are dropped |
| Serializer.CsvRoundTrip | orkbasecxx/serializers/Serializer.cpp:314-354 | a list survives if and only if no element has blanks at its ends and the last is not empty (empty lists come back as the default) |
| Serializer.CsvMapRoundTrip | orkbasecxx/serializers/Serializer.cpp:356-382 | a map of strings survives if and only if no key starts and no value ends with a blank |
| Serializer.MapComesBack | orkbasecxx/serializers/Serializer.cpp:208-233 | and in any case comes back with keys trimmed on the left and values on the right |
| Serializer.FailsIffNoColon | orkbasecxx/serializers/Serializer.cpp:356-382 | reading a map fails if and only if an element has no colon |
| Serializer.AddCsv | orkbasecxx/serializers/Serializer.cpp:190-206 | the loop that joins a list |
| Serializer.GetCsvElements | orkbasecxx/serializers/Serializer.cpp:314-354 | the loop that splits one |
| Serializer.AddCsvMap | orkbasecxx/serializers/Serializer.cpp:208-233 | the loop that joins a map |
| Serializer.GetCsvMapPairs | orkbasecxx/serializers/Serializer.cpp:356-382 | the loop that splits one, failing on a missing colon |
| Serializer.EscapeText | orkbasecxx/serializers/SingleLineSerializer.cpp:127-149 | the escape loop |
| Serializer.UnescapeText | orkbasecxx/serializers/SingleLineSerializer.cpp:152-181 | the unescape loop |
| KeyValueSerializer.FieldsRoundTrip | orkbasecxx/serializers/SingleLineSerializer.cpp:18-124 | fields with distinct alphanumeric keys survive serializing, trimming, scanning and unescaping if and only if: in the URL form no value holds a zero byte; on a single line the last value does not end in a blank other than a space |
| KeyValueSerializer.ObjectRoundTrip | orkbasecxx/serializers/UrlSerializer.cpp:22-126 | an object with a map of tags among its fields: through all three escapings and both scanners every field and every tag comes back |
| KeyValueSerializer.UrlRoundTrip | orkbasecxx/serializers/UrlSerializer.cpp:128-175 | URL encoding, which stops at a zero byte, decodes to the value cut there |
| KeyValueSerializer.FieldIsWritten | orkbasecxx/serializers/SingleLineSerializer.cpp:18-27 | what stands in the output for one more field |
| KeyValueSerializer.EscapeUrlOfChar | orkbasecxx/serializers/UrlSerializer.cpp:128-147 | what the URL form writes for each character |
| KeyValueSerializer.NothingBehindAnError | orkbasecxx/serializers/SingleLineSerializer.cpp:30-124 | behind any fields, a character that begins no key ends the reading, and what was found stays |
| KeyValueSerializer.SecondEqualsSign | orkbasecxx/serializers/SingleLineSerializer.cpp:30-124 | a second equals sign ends it too; its field counts only when that was the last character |
| KeyValueSerializer.KeyValueSerializer.DeSerialize | orkbasecxx/serializers/UrlSerializer.cpp:41-126 | the scanner loop in place, for both formats |
| KeyValueSerializer.KeyValueSerializer.AddString | orkbasecxx/serializers/SingleLineSerializer.cpp:18-27 | one field appended |
| KeyValueSerializer.EscapeUrlText | orkbasecxx/serializers/UrlSerializer.cpp:128-146 | the URL encode loop |
| KeyValueSerializer.UnescapeUrlText | orkbasecxx/serializers/UrlSerializer.cpp:148-175 | the URL decode loop, failing on a code cut off |
| Iax2Sessions.IndexesAgree | orkaudio/audiocaptureplugins/voip/Iax2Session.cpp:676-906 | after every run in which a session keeps one called leg that no other live session has, each source key leads to the session with that key, each destination key to a live one with that key, neither to a stopped one |
| Iax2Sessions.EventsInOrder | orkaudio/audiocaptureplugins/voip/Iax2Session.cpp:361-567 | in every such run the start comes first and once, the stop last and at most once, the numbers of each channel count 1 to 65534 round, and each timestamp is 160 times its number |
| Iax2Sessions.DeadIsSilent | orkaudio/audiocaptureplugins/voip/Iax2Session.cpp:887-906 | a session out of the source index is never reported on again |
| Iax2Sessions.InvNext | orkaudio/audiocaptureplugins/voip/Iax2Session.cpp:676-1016 | every message and every sweep keeps the invariant |
| Iax2Sessions.OnHooverInv | orkaudio/audiocaptureplugins/voip/Iax2Session.cpp:976-1016 | a sweep stops exactly the idle live sessions, whatever the order of the keys; its pass over the second index never finds any |
| Iax2Sessions.AuthreqNeedsOneInvitee | orkaudio/audiocaptureplugins/voip/Iax2Session.cpp:739-778 | an AUTHREQ keeps the indexes in agreement if and only if the discipline holds |
| Iax2Sessions.AcceptNeedsOneInvitee | orkaudio/audiocaptureplugins/voip/Iax2Session.cpp:676-735 | an ACCEPT too |
| Iax2Sessions.IndexesAgreeIff | orkaudio/audiocaptureplugins/voip/Iax2Session.cpp:676-1016 | over whole runs: both indexes agree after every step if and only if the run is disciplined |
| Iax2Sessions.TwoInviteesOutliveTheCall | orkaudio/audiocaptureplugins/voip/Iax2Session.cpp:887-906 | a call announced with two called legs: after its hangup a packet on the first of them is still reported, behind the stop |
| Iax2Sessions.CallIsRecorded | orkaudio/audiocaptureplugins/voip/Iax2Session.cpp:361-567 | what is recorded of a linked call among any traffic of other calls: nothing before its first full frame; then one start, on channel 1 the packets to the address that frame went to, on channel 2 the others, each in order and without repeats of the time before; at its end one stop |
| Iax2Sessions.StepTells | orkaudio/audiocaptureplugins/voip/Iax2Session.cpp:676-1016 | what each message and sweep does to each live call: which end it, what it reports then, and what becomes of the others |
| Iax2Sessions.HangupTells | orkaudio/audiocaptureplugins/voip/Iax2Session.cpp:830-885 | a hangup ends exactly the calls that have one of its keys as a leg |
| Iax2Sessions.HooverTells | orkaudio/audiocaptureplugins/voip/Iax2Session.cpp:976-1016 | a sweep ends exactly the calls idle for longer than the timeout |
| Iax2Sessions.NewTells | orkaudio/audiocaptureplugins/voip/Iax2Session.cpp:780-826 | a NEW makes a waiting call unless one from its leg is up |
| Iax2Session.PacketTells | orkaudio/audiocaptureplugins/voip/Iax2Session.cpp:361-567 | one packet: its channel by the address of the first counted packet, when it is passed over, and else the one chunk it becomes, with its number |
| Iax2Session.CallIsHeard | orkaudio/audiocaptureplugins/voip/Iax2Session.cpp:409-557 | over all packets of a call: what is on each channel |
| Iax2Session.CallIsNumbered | orkaudio/audiocaptureplugins/voip/Iax2Session.cpp:525-557 | the number and timestamp of each chunk by its place |
| Iax2Session.AddPacketFollows | orkaudio/audiocaptureplugins/voip/Iax2Session.cpp:361-567 | a voice packet given to a running call is reported as a recorder expects |
| Iax2Session.AcceptedOrder | orkaudio/audiocaptureplugins/voip/Iax2Session.cpp:56-91 | what such a recorder accepts has one start, first, and at most one stop, last |
| Iax2Session.AcceptedNumbers | orkaudio/audiocaptureplugins/voip/Iax2Session.cpp:525-557 | and consecutive numbers per channel with their timestamps |
| Iax2Session.VoiceSession.AddIax2Packet | orkaudio/audiocaptureplugins/voip/Iax2Session.cpp:361-567 | the session object in place, with the events it reports |
| Iax2Session.VoiceSession.StopCall | orkaudio/audiocaptureplugins/voip/Iax2Session.cpp:56-73 | the stop in place |
| Iax2Sessions.SessionTable.ReportIax2Accept | orkaudio/audiocaptureplugins/voip/Iax2Session.cpp:676-735 | the two maps in place: ACCEPT |
| Iax2Sessions.SessionTable.ReportIax2Authreq | orkaudio/audiocaptureplugins/voip/Iax2Session.cpp:739-778 | AUTHREQ |
| Iax2Sessions.SessionTable.ReportIax2New | orkaudio/audiocaptureplugins/voip/Iax2Session.cpp:780-826 | NEW |
| Iax2Sessions.SessionTable.ReportIax2Hangup | orkaudio/audiocaptureplugins/voip/Iax2Session.cpp:830-885 | HANGUP |
| Iax2Sessions.SessionTable.ReportIax2Packet | orkaudio/audiocaptureplugins/voip/Iax2Session.cpp:909-968 | a voice packet |
| Iax2Sessions.SessionTable.Hoover | orkaudio/audiocaptureplugins/voip/Iax2Session.cpp:976-1016 | the sweep, with its two passes |
| Iax2Parsers.ParseReadsElements | orkaudio/audiocaptureplugins/voip/Iax2Parsers.cpp:65-147 | a frame is accepted if and only if it is a concatenation of complete elements; then each string field, read as the C string it points to, is the value of the last element of its type up to its first zero, and each number is that element's four bytes in network order or 0, although the walk overwrites the type bytes |
| Iax2Parsers.FieldsTell | orkaudio/audiocaptureplugins/voip/Iax2Parsers.cpp:87-126 | field by field with the element numbers of the RFC: the last element of that type |
| Iax2Parsers.WalkStringField | orkaudio/audiocaptureplugins/voip/Iax2Parsers.cpp:87-132 | every noted value ends up with a zero right behind it |
| Iax2Parsers.WalkStays | orkaudio/audiocaptureplugins/voip/Iax2Parsers.cpp:128-134 | no byte outside the elements and the one behind them changes |
| Iax2Parsers.DecodeEncodes | orkaudio/audiocaptureplugins/voip/Iax2Parsers.cpp:71-132 | the elements of accepted bytes are those bytes |
| Iax2Parsers.EncodeDecodes | orkaudio/audiocaptureplugins/voip/Iax2Parsers.cpp:71-132 | and every list of elements is accepted as itself |
| Iax2Parsers.ParseIes | orkaudio/audiocaptureplugins/voip/Iax2Parsers.cpp:65-147 | the loop in place on the frame's buffer, which it leaves within bounds |
| ThreadSafeQueue.Conservation | orkbasecxx/ThreadSafeQueue.h:46-89 | in every reachable state permits plus consumers past the semaphore exceed the length by the rejected pushes less the empty pops; who must wait could have had nothing; elements leave in the order accepted |
| ThreadSafeQueue.LengthBounded | orkbasecxx/ThreadSafeQueue.h:47-60 | with one size throughout the queue never holds more |
| ThreadSafeQueue.PushTakesIff | orkbasecxx/ThreadSafeQueue.h:47-60 | a push takes its element if and only if fewer than the size are queued, and adds a permit in any case |
| ThreadSafeQueue.AllTakenWhenTheyFit | orkbasecxx/ThreadSafeQueue.h:46-89 | whatever the interleaving, nothing is lost while no more were pushed than fit |
| ThreadSafeQueue.BoundedQueue.Push | orkbasecxx/ThreadSafeQueue.h:47-60 | the push in place |
| ThreadSafeQueue.BoundedQueue.Pop | orkbasecxx/ThreadSafeQueue.h:63-89 | the pop in place |
| ThreadSafeQueue.OrkSemaphore.AcquireTimed | orkbasecxx/Utils.h:119-127 | a timed wait takes a permit if there is one and ends either way |
| OggOpusFile.RunIsWholeIffGuarded | orkbasecxx/audiofile/OggOpusFile.cpp:435-562 | for every run of mono chunks that stays within the buffers: frames followed by pending bytes are the concatenated input, with the count in step, if and only if a chunk that completes no frame came only when nothing was pending, which the lengths alone decide |
| OggOpusFile.FramesAreTheInput | orkbasecxx/audiofile/OggOpusFile.cpp:435-562 | under that guard the frames are the input cut every 320 bytes and what is pending is the rest |
| OggOpusFile.AudioIsRightIff | orkbasecxx/audiofile/OggOpusFile.cpp:435-562 | the audio alone: frames followed by pending bytes are the input if and only if no chunk completed a frame once the guard was broken |
| OggOpusFile.FullWrite | orkbasecxx/audiofile/OggOpusFile.cpp:470-561 | from a synced state a chunk that completes frames loses, repeats and moves nothing |
| OggOpusFile.ShortWrite | orkbasecxx/audiofile/OggOpusFile.cpp:444-468 | a short chunk is kept, and the count stays in step if and only if nothing was pending |
| OggOpusFile.SyncedInBounds | orkbasecxx/audiofile/OggOpusFile.cpp:443-529 | from a synced state the copies fit if and only if pending and chunk stay under the main buffer plus one frame |
| OggOpusFile.CloseEmitsRemainder | orkbasecxx/audiofile/OggOpusFile.cpp:571-590 | closing emits exactly the remainder, padded with zeros to one frame, or nothing |
| OggOpusFile.CloseEmitsPending | orkbasecxx/audiofile/OggOpusFile.cpp:571-590 | from any state: what is pending and the zeros that complete its frame |
| OggOpusFile.TwoShortChunksBreakTheStream | orkbasecxx/audiofile/OggOpusFile.cpp:466-466 | 50, 50 and 60 samples come out as a frame that ends in what the buffer held before |
| OggOpusFile.OggOpusFile.WriteChunk | orkbasecxx/audiofile/OggOpusFile.cpp:435-562 | the two buffers in place |
| OggOpusFile.OggOpusFile.CloseFile | orkbasecxx/audiofile/OggOpusFile.cpp:571-590 | the padding in place |
| OggOpusFile.OggOpusFile.EncodeChunks | orkbasecxx/audiofile/OggOpusFile.cpp:604-622 | the frames handed to the encoder are the consecutive ones of the buffer |
| MediaChunkFile.WritesReadBack | orkbasecxx/audiofile/MediaChunkFile.cpp:41-161 | any chunks written with any batch size, closed and read: exactly the non-empty ones, in order, then the end of the file |
| MediaChunkFile.FileHoldsChunks | orkbasecxx/audiofile/MediaChunkFile.cpp:85-117 | wherever the batches were flushed, the closed file is the non-empty chunks one after the other |
| MediaChunkFile.WriteTells | orkbasecxx/audiofile/MediaChunkFile.cpp:85-117 | the file is written if and only if more than 1024 bytes a KB of batch are queued |
| MediaChunkFile.NeverMoreThanABatch | orkbasecxx/audiofile/MediaChunkFile.cpp:85-117 | so never more than a batch waits between two chunks |
| MediaChunkFile.ReadTells | orkbasecxx/audiofile/MediaChunkFile.cpp:119-161 | one read, by the bytes of the file |
| MediaChunkFile.TruncationReadsPrefix | orkbasecxx/audiofile/MediaChunkFile.cpp:119-161 | a file cut anywhere gives the chunks that are whole, then the incomplete-chunk error if and only if the next has its details but not all of its audio, else the end |
| MediaChunkFile.MediaChunkFile.FlushToDisk | orkbasecxx/audiofile/MediaChunkFile.cpp:50-82 | the flush loop in place |
| MediaChunkFile.MediaChunkFile.WriteChunk | orkbasecxx/audiofile/MediaChunkFile.cpp:85-117 | the queue, its size and the flush in place |
| MediaChunkFile.MediaChunkFile.ReadChunkMono | orkbasecxx/audiofile/MediaChunkFile.cpp:119-161 | one read in place, with all its outcomes |
| OrkLruMap.EveryRunIsHealthy | orkbasecxx/OrkLruMap.h:116-246 | after any operations from empty, capacity at least 1: list and map agree, each stored iterator names its own key's node, the count is the list's length and at most the capacity, the plain ordered map is what they represent, and times do not go back under such a clock |
| OrkLruMap.RunsRefinePlainMap | orkbasecxx/OrkLruMap.h:116-246 | from any agreeing state every run is that of the plain ordered map |
| OrkLruMap.LookupsAgree | orkbasecxx/OrkLruMap.h:138-180 | a lookup and the iterator it yields find what a search of the plain map finds |
| OrkLruMap.InsertionResult | orkbasecxx/OrkLruMap.h:116-136 | exactly what an insertion leaves; so renewing a key of a full map loses the oldest entry all the same |
| OrkLruMap.RemovalResult | orkbasecxx/OrkLruMap.h:194-215 | exactly what a removal leaves |
| OrkLruMap.LatestKeysStay | orkbasecxx/OrkLruMap.h:116-136 | inserting keys that all differ keeps exactly the latest, as many as fit |
| OrkLruMap.OrekaLruMap.InsertPair | orkbasecxx/OrkLruMap.h:116-136 | both containers in place, seen as the plain map |
| OrkLruMap.OrekaLruMap.Remove | orkbasecxx/OrkLruMap.h:204-215 | removal through the iterator in place |
| OrkLruMap.OrekaLruMap.RemoveOldest | orkbasecxx/OrkLruMap.h:194-202 | eviction in place |
| OrkLruMap.OrekaLruMap.GetValue | orkbasecxx/OrkLruMap.h:143-157 | a value is found if and only if the plain map has it |
| OrkLruMap.OrekaLruMap.GetEntryTs | orkbasecxx/OrkLruMap.h:159-169 | its time, or all ones |
| OrkLruMap.OrekaLruMap.GetOldestTs | orkbasecxx/OrkLruMap.h:182-192 | the oldest time, or all ones |
| OrkLruMap.OrekaLruMap.SetSize | orkbasecxx/OrkLruMap.h:238-246 | the capacity only grows, and no entry is lost |
| DirectionSelector.LatestMarkWins | orkbasecxx/DirectionSelector.cpp:241-317 | with one clock reading a report, a chunk is blanked if and only if the last report at or before it (before the first, the area code's choice) blanks its channel for the local side |
| DirectionSelector.ChunkIsSilencedIff | orkbasecxx/DirectionSelector.cpp:293-311 | which channel is silenced for which side kept, and that all else is left as it was |
| DirectionSelector.MarkHoldsWhenLast | orkbasecxx/DirectionSelector.cpp:283-290 | each time from the first report on belongs to exactly one mark, that of the last report at or before it |
| DirectionSelector.ExclusiveIffOneReading | orkbasecxx/AudioTape.cpp:441-452 | the source reads the clock twice: no time belongs to two marks if and only if no report saw it move in between |
| DirectionSelector.MarksAt | orkbasecxx/AudioTape.cpp:441-452 | what the marks of a list of reports are |
| DirectionSelector.AudioTape.KeepDirection | orkbasecxx/AudioTape.cpp:441-452 | a report in place |
| DirectionSelector.AudioTape.KeepFallback | orkbasecxx/DirectionSelector.cpp:241-255 | the default mark in place |
| DirectionSelector.AudioTape.BlankChunk | orkbasecxx/DirectionSelector.cpp:282-317 | the loop over the marks in place |
| OpusHeaders.BuildThenParse | orkbasecxx/audiofile/opus_header.cpp:136-272 | the packet of every valid header, with any channel count and table, parses to that header as version 1 |
| OpusHeaders.ParseThenBuild | orkbasecxx/audiofile/opus_header.cpp:136-272 | whatever is accepted is valid and is rebuilt: byte for byte when its version is 1, but for the version byte when it is 0, as a prefix when there may be more |
| OpusHeaders.AcceptedIffBuilt | orkbasecxx/audiofile/opus_header.cpp:136-272 | accepted as version 1 are exactly the packets of valid headers |
| OpusHeaders.ParseTells | orkbasecxx/audiofile/opus_header.cpp:136-217 | accepted if and only if the bytes obey the layout, and what each field is in bytes |
| OpusHeaders.OpusHeader.ParsePacket | orkbasecxx/audiofile/opus_header.cpp:136-217 | the cursor walk in place |
| OpusHeaders.OpusHeader.ToPacket | orkbasecxx/audiofile/opus_header.cpp:219-272 | the packet written in place, 0 if and only if it does not fit, and no byte past the length given is touched |
| OpusHeaders.ROPacket.ReadUint32 | orkbasecxx/audiofile/opus_header.cpp:104-114 | a number read in little-endian order, or refused at the end |
| OpusHeaders.Packet.WriteUint32 | orkbasecxx/audiofile/opus_header.cpp:72-82 | a number written in little-endian order, or refused at the end |
| IpRangeLists.PtonIffDotted | orkbasecxx/Utils.cpp:636-674 | accepted are exactly four dotted groups of digits worth at most 255 each |
| IpRangeLists.PtonSound | orkbasecxx/Utils.cpp:636-674 | the address has the values of the groups |
| IpRangeLists.NtopThenPton | orkbasecxx/Utils.cpp:622-634 | sixteen bytes always hold the text of an address, and it is read back as that address |
| IpRangeLists.WrittenEntryIsRead | orkbasecxx/Utils.cpp:1030-1069 | a written address with a decimal length is read as just that, and refused unless the length is 1 to 32 |
| IpRangeLists.BlockOfOctets | orkbasecxx/Utils.cpp:1083-1084 | a block of whole octets is the addresses that begin with them |
| IpRangeLists.SamePrefix | orkbasecxx/Utils.cpp:1083-1084 | comparing shifted addresses is comparing their leading bits |
| IpRangeLists.InetPton4 | orkbasecxx/Utils.cpp:636-674 | the scanner loop |
| IpRangeLists.IpRanges.Compute | orkbasecxx/Utils.cpp:1023-1071 | succeeds if and only if every entry is good, and keeps the blocks of those before the first bad one |
| IpRangeLists.IpRanges.Matches | orkbasecxx/Utils.cpp:1073-1093 | true if and only if the address shares the leading bits of some listed block |
| G711.ErrorIsHalfAStep | orkbasecxx/g711.c:206-265 | for every integer: within 32635 the round trip moves a sample by at most 2 to the power of its segment plus 2, beyond it saturates at 32124 |
| G711.RoundTripMonotone | orkbasecxx/g711.c:206-265 | companding keeps the order of all samples |
| G711.CodesComeBack | orkbasecxx/g711.c:206-265 | every code survives decoding and encoding if and only if it is not 0x7F |
| G711.DecodedValue | orkbasecxx/g711.c:239-265 | what each code decodes to: sign, segment and step |
| G711.Search | orkbasecxx/g711.c:80-93 | the first table entry not below the value, or the size |
| G711.Linear2UlawByTable | orkbasecxx/g711.c:206-237 | the encoder by table search |

## Left out

- TapeHandOff.NoLostWakeUp: excepts the stops of stranded tapes, for which it is false; `QuietMeansDone` and `StrandedForEver` say what happens to them.
- AudioTapes.AudioTape.Write: does not model the party filter, which is taken to be off or passed; the loop that discards chunks never stops a tape.
- AudioTapes.AudioTape.AddAudioChunk: does not model the 32-bit width of the counters.
- ImmediateProcessing.ImmediateProcessing.Handle: is one undisturbed turn; interleaved ports are covered by the machine's steps. A tape's duration and keep flag are parameters, and deleting its file is not modelled.
- TapeHandOff.InvRun: takes a port to be served by one thread at a time, and each unguarded flag access to be atomic.
- CapturePorts.CapturePort.AddAudioChunk: does not model voice activity detection, segmentation and filters, which decide earlier whether a chunk or an event gets here.
- IpFragmentTable.IdsAreSeparate: asks that no purge, which traffic of any id can trigger, finds the entry 60 seconds old; the purge itself is modelled in `HandleIpFragment`.
- IpFragmentTable.AloneReassembles: asks the same.
- IpFragmentTable.DatagramSurvivesTraffic: asks the same.
- IpPackets.SetPacketLenReads: headers are at least 20 bytes and the captured buffer is the packet's length; shorter captures are not modelled.
- SipTcp.StreamIsDispatched: asks that no continuation segment looks like the start of a message, which would begin a second stream, and that sequence numbers do not wrap at 32 bits.
- SipTcp.TrackedStream: asks the same.
- SipTcp.UncutStreamIsDispatched: asks the same.
- SipTcp.CutAtMessageEndLosesRest: asks that no later segment begins with a listed method, which would begin a new stream.
- SipTcp.SegmentationIndependence: says nothing of streams with a Content-Length that is missing its number, negative or over INT_MAX, for which the source reads an unset or overflowed number.
- SipFraming.ParseSipStream: stops at such a length.
- SipTcp.SipTcpStreams.TrySipTcp: streams are values of a list where the source shares pointers to objects like `SipTcpStream`; what a dispatched message then means is not modelled.
- KeyValueSerializer.FieldsRoundTrip: fields of other types (numbers, dates, booleans, enumerations) are texts here; required and optional fields, nested objects and the DOM serializer are not modelled.
- Iax2Sessions.IndexesAgree: asks for one called leg a session, of its own; the two lemmas next to it show that each message keeps the indexes if and only if it does.
- Iax2Sessions.SessionTable.ReportIax2New: sessions are values named by number where the source shares pointers to objects like `VoiceSession`; call numbers are numbers, and the metadata sent along with the start event is not modelled.
- Iax2Parsers.ParseIes: the frame headers around the elements and the codec tables are not modelled.
- ThreadSafeQueue.Conservation: which waiting consumer wakes is left open.
- OggOpusFile.OggOpusFile.WriteChunk: mono only; does not model the stereo buffers, a chunk whose copies would leave the buffers, an encoder that fails, or the flag that marks the last chunk.
- OggOpusFile.OggOpusFile.CloseFile: mono only.
- OggOpusFile.OggOpusFile.EncodeChunks: does not model an encoder that fails or the flag that marks the last chunk.
- OggOpusFile.RunIsWholeIffGuarded: chunks hold whole 16-bit samples.
- MediaChunkFile.MediaChunkFile.FlushToDisk: does not model a disk that fails while writing; the details take 32 bytes, as compilers for the supported platforms lay them out.
- MediaChunkFile.MediaChunkFile.WriteChunk: does not model a disk that fails while writing either.
- OrkLruMap.EveryRunIsHealthy: a capacity of 0, where the source takes the front of an empty list, is not modelled.
- DirectionSelector.AudioTape.KeepFallback: which area code matches the remote party is a parameter; renaming and copying the capture file is not modelled.
- OpusHeaders.OpusHeader.ParsePacket: what a refused packet leaves in the header's fields is not stated.
- IpRangeLists.IpRanges.Compute: texts hold no zero byte.
- G711.ErrorIsHalfAStep: samples are integers, so the overflow of negating the least 32-bit one is not modelled; A-law is not modelled.
- Sockets, HTTP and TLS, pcap, databases, logging, plugin loading, configuration parsing, file naming and the website: input and output or wiring with only easy claims.

# Verification of the RTSP/RTP video server

A Dafny model of an RTSP server that reads H.264 from a file or a camera and sends it over RTP to
any number of viewers, and proofs about it. `dafny verify dfyconfig.toml` checks everything.

The components follow the program.

- `HubProtocol` is the media hub as interleaved atomic steps of the control thread and of every
  pump thread it ever spawned, with one mutex, one flag and the thread handles. Its invariant is
  inductive over every interleaving. From it follow the lifetime of sources and threads, freedom
  from deadlock, and who is handed what. `HubCalls` puts the steps together to whole calls.
- `AnnexB` and `FileSources` turn a byte stream into NALs and play a file over and over. The
  reader is a class over a growing buffer and a stream that hands out arbitrary chunks; it is
  proved equal to one leftmost split of the whole stream. `Rounds` says how far a looping file has
  been played after so many calls.
- `Fua`, `Packetizer`, `Streamers` and `RtpClock` turn NALs into RTP packets. `Receivers` is an
  independent receiver for them, with every pattern of losses and failed sends; `Splice` is a run
  in which it is misled.
- `Text`, `Parser`, `Responses` and `Client` parse requests and print responses; the client is an
  independent reader of what was printed.
- `Base64`, `Sdp` and `ParameterSets` carry the parameter sets from the stream into the session
  description, with the decoders that take them out again. `CachedSets` follows them through the
  runs of the hub over a file, to the client that asks for a description.
- `Framing` and `Protocol` say what a session makes of its requests, as functions. `Sessions` has
  the session as an object that shares a hub, proved against these functions. `Chunks` shows that
  the cutting of the connection into reads does not matter, unless the buffer overflows, and says
  exactly when it does; `Overflow` is such a run. `PortHistory` says to which port a session
  streams, `PlayHistory` whether it does, and `Closings` when it ends. `Handshake` follows a client
  that goes on with what the responses told it, and `Answers` reads back every field of them.
- `Servers` is the event loop with its map of clients, and the fold of the events that it is proved
  equal to; `Visits` shows that each client is answered as if it were alone.
- `FileRuns` are the runs of the hub whose sources play a file; `EndToEnd` puts file, hub, sender
  and receiver together.

Where the program meets the outside (random draws, sockets, the file system), the model takes
arbitrary answers: a session has an oracle for its requests, a socket may refuse any packet, a
read may return any chunk. Between any two things that a session does, the pumps of the hub may
go on for any number of steps and send to whoever is subscribed; the hub that the sessions share
is a run of `HubProtocol`, whose calls are theirs.

Some claims one would expect are false of the code. They are refuted here by an input, and proved
exactly where they hold.

- That a subscriber is always being served is false when a source ends
  (`HubProtocol.WatchedMayBeStopped`). It is true if and only if no read of the pump that was
  spawned last has failed (`HubProtocol.ServedIff`).
- That RTP goes to the port of the last accepted SETUP is false, because a SETUP that is turned
  down may already have stored its port (`PortHistory.RejectedSetupMovesStream`). When exactly it
  is true is `PortHistory.StreamPortIff`.
- That a PLAY answered 200 is playing is false: `PlayHistory.PlayAnsweredNotPlaying` is a SETUP and
  a PLAY from the start after which the session is READY. It is true if and only if the hub
  subscribes the streamer (`PlayHistory.PlaysIff`), which it does if and only if running_ was set
  when subscribe read it, or the source started (`HubProtocol.AddedIff`).
- That a receiver with consecutive sequence numbers outputs only NALs that were sent is false
  behind a loss of 65536 packets (`Splice.BurstMakesNewNal`). It outputs exactly those that arrived
  if and only if the losses splice none together (`Receivers.ReceivesWhatArrived`).
- That the buffer never overflows for requests that fit into it is false
  (`Overflow.OneLongerOverflows`). It overflows if and only if, at one of the reads, what is left
  of the requests so far is longer with the read than the buffer (`Chunks.OverflowIff`); never,
  for reads of 4096 and requests of up to 61441 characters (`Chunks.ChunkIndependence`).

Where code and documentation disagree, the model follows the code: the payload limit is 1400
(src/rtp/h264_fua.hpp:52), not 1388 (PROJECT.md:84); without a hub PLAY is answered 200
(src/rtsp/session.cpp:293-300), not 500 (src/rtsp/session.hpp:73); PAUSE discards the streamer
(src/rtsp/session.cpp:114), though src/rtsp/session.hpp:43 says that it is kept.

## Model

| member | source | states |
|---|---|---|
| `HubProtocol.StepKeepsThreads` | src/media/hub.cpp:61-132 | Every step of any thread, in any interleaving, keeps the inductive invariant: who holds the mutex, which thread each handle stands for, what running_ says about it, which source a live pump works on, whether that source is started |
| `HubProtocol.OnePump` | src/media/hub.cpp:66-84 | At most one pump is live, and it is the one spawned last, so the running_ = false of an old pump never lands after a newer one was started |
| `HubProtocol.SourceOutlivesPump` | src/media/hub.cpp:76-132 | source_ is there for every live pump and is its source, and a step that replaces it is only taken when every pump has ended |
| `HubProtocol.NoJoinableOverwritten` | src/media/hub.cpp:72-84 | When a pump is spawned pump_thread_ is not joinable and every earlier pump has ended |
| `HubProtocol.JoinUnderLockIsImmediate` | src/media/hub.cpp:66-74 | When subscribe comes to the join under the mutex, the pump it joins has ended |
| `HubProtocol.MutualExclusion` | src/media/hub.cpp:66-159 | Nobody else is in a critical section while a pump broadcasts |
| `HubProtocol.NoDeadlock` | src/media/hub.cpp:61-132 | If the control thread cannot go on, the very pump that it joins or that holds the mutex can |
| `HubProtocol.PumpStepMakesProgress` | src/media/hub.cpp:118-132 | With running_ clear, every pump step brings the end of the pump nearer |
| `HubProtocol.HolderReleases` | src/media/hub.cpp:140-159 | A pump that holds the mutex serves one more subscriber or releases it with every step, and the list stands still meanwhile |
| `HubProtocol.JoinWaitIsBounded` | src/media/hub.cpp:103-116 | Under every interleaving a join waits for no more than a bounded number of pump steps, as long as read_nal returns |
| `HubProtocol.HandedIsSlice` | src/media/hub.cpp:88-159 | Each streamer is handed exactly what was broadcast between its subscribe and its unsubscribe critical section, in order |
| `HubProtocol.NothingAfterUnsubscribe` | src/media/hub.cpp:93-116 | Once a streamer has left, nothing more is handed to it, whatever happens later, and history is never rewritten |
| `HubProtocol.NobodyWatchesNothingRuns` | src/media/hub.cpp:103-116 | When the unsubscribe of the last subscriber has returned, and after the destructor, no pump is live and no source is started |
| `HubProtocol.ServedIff` | src/media/hub.cpp:61-132 | A subscriber is being served between calls (running_ set, and the pump of pump_thread_ in its loop) if and only if no read_nal of the pump that was spawned last has returned false |
| `HubProtocol.WatchedIsRunning` | src/media/hub.cpp:118-132 | So with a source that has not ended, whoever is subscribed between calls is being served |
| `HubProtocol.RunningTellsPump` | src/media/hub.cpp:61-132 | For any source, between calls: running_ is set if and only if the pump of pump_thread_ has not ended |
| `HubProtocol.WatchedMayBeStopped` | src/media/hub.cpp:125-131 | A run in which a subscriber is left behind with running_ clear, because read_nal returned false |
| `HubProtocol.HandedInOrder` | src/media/hub.cpp:118-159 | For any source: what a streamer is handed are gapless stretches, one source after the other, each but the first from the first NAL of its source on |
| `HubProtocol.HandedIsStretch` | src/media/hub.cpp:118-159 | With a source that has not ended, it is a gapless stretch of the NALs of one source, in source order |
| `HubCalls.PumpRunsOut` | src/media/hub.cpp:118-132 | From every state between calls, or in the join of unsubscribe, there is a way in which the pump ends without the control thread |
| `HubCalls.SubscribeRuns` | src/media/hub.cpp:61-91 | Between calls, subscribe runs to its end with either answer: the list grows by the streamer, or is as it was |
| `HubCalls.UnsubscribeRuns` | src/media/hub.cpp:93-116 | Between calls, unsubscribe runs to its end, joining the pump if it must, and the streamer is gone from the list |
| `HubCalls.PumpKeepsList` | src/media/hub.cpp:118-159 | Whatever the pumps do while no call is made, the list does not change |
| `HubProtocol.AddedIff` | src/media/hub.cpp:61-91 | When subscribe is over, the streamer was added if and only if running_ was set when subscribe read it, or was clear and the source started |
| `HubCalls.DescribeRuns` | src/media/hub.cpp:195-202 | Between calls, the parameter sets are read under the lock, and list and log stay as they are |
| `HubCalls.CallKnows` | src/media/hub.cpp:88-159 | However a call and the pumps interleave, nobody is handed anything who was not handed something before, was not on the list, and is not the one subscribed |
| `AnnexB.FindIff` | src/media/annexb_reader.cpp:28-52 | The scan finds the start code with none in front of it, of three or four octets, and nothing else |
| `AnnexB.FindInPrefix` | src/media/annexb_reader.cpp:98-128 | A start code found in what has arrived is the one the whole stream has: later octets never move, lengthen or forestall it |
| `AnnexB.FindAfterBackOff` | src/media/annexb_reader.cpp:101-118 | Restarting a failed search three octets before the end misses nothing |
| `AnnexB.AnnexBReader.FindStartCode` | src/media/annexb_reader.cpp:28-52 | The loop finds the leftmost start code of the buffer |
| `AnnexB.AnnexBReader.Fill` | src/media/annexb_reader.cpp:66-78 | Appends one chunk and loses nothing |
| `AnnexB.AnnexBReader.AlignBuffer` | src/media/annexb_reader.cpp:83-92 | Drops exactly what precedes the first start code of the stream, however it is chunked |
| `AnnexB.AnnexBReader.FindNalEnd` | src/media/annexb_reader.cpp:98-119 | Finds the start code that the whole stream has behind the NAL, however it is chunked |
| `AnnexB.NextReadTakes` | src/media/annexb_reader.cpp:54-130 | A read takes exactly one NAL, or an empty piece, off the split; it succeeds exactly while there are two start codes, and then the stream gets shorter |
| `AnnexB.AnnexBReader.ReadNal` | src/media/annexb_reader.cpp:54-130 | Whatever the chunks: emission, result and what is left unread are those of one read of the whole unread stream |
| `AnnexB.AnnexBReader.ReadAll` | src/media/annexb_reader.cpp:54-130 | For every stream and every chunking, reading until false emits exactly the non-empty pieces of the one-shot split |
| `AnnexB.PiecesReassemble` | src/media/annexb_reader.cpp:28-52 | The pieces of the split with the skipped start codes between them are the stream, octet for octet |
| `AnnexB.PiecesHoldNoCode` | src/media/annexb_reader.cpp:28-52 | No piece of the split still holds a start code |
| `AnnexB.NalsOfFrame` | src/media/annexb_reader.cpp:54-130 | Round trip: well-formed NALs framed with any mix of start codes are read back as they were |
| `FileSources.RoundsAreLoopPrefix` | src/media/file_source.cpp:48-94 | Whole rounds and the beginning of another are a prefix of the list repeated for ever |
| `FileSources.FileSource.Start` | src/media/file_source.cpp:19-37 | Opens the file at its beginning and starts the clock, or fails; nothing happens when it is open already |
| `FileSources.FileSource.Stop` | src/media/file_source.cpp:39-46 | Closes the file and forgets what was read ahead of it; nothing happens when it is closed already |
| `FileSources.FileSource.ReadNal` | src/media/file_source.cpp:48-94 | Whatever the chunks: one call is one read of the file, followed at the end of a round by the first read of the next exactly in loop mode; the due time moves once per successful call that ends a frame |
| `FileSources.EndsFrameIff` | src/media/file_source.cpp:54-66 | A call ends a frame if and only if a NAL of type 1 or 5 is among those it emits |
| `FileSources.NextLoopReadTakes` | src/media/file_source.cpp:68-82 | One call moves the account of the replay on by at most two NALs; it succeeds exactly if the rest of the round or the file holds two start codes |
| `FileSources.LoopingPlays` | src/media/file_source.cpp:48-94 | However often a looping source is called, what it has played is a prefix of the NAL list repeated for ever; with two start codes in the file no call fails |
| `FileSources.PlayCalls` | src/media/file_source.cpp:48-94 | The calls on a started source are those of the specification, for any number of calls and any chunking; with two start codes none fails, and what was played is a loop prefix |
| `AnnexB.ReadTakesPiece` | src/media/annexb_reader.cpp:54-130 | One read takes exactly the first piece off the split of what is unread, and is true as long as another one follows |
| `Rounds.PlayedExactly` | src/media/file_source.cpp:48-94 | Of a file with two start codes and k pieces, n calls play exactly the first n + (n - 1) / (k - 1) pieces of their endless repetition, but for the empty ones |
| `Rounds.PlaysForEver` | src/media/file_source.cpp:48-94 | So the replay never stops coming round: every NAL of the file is played in each of any number of rounds |
| `Fua.HeaderOctets` | src/rtp/h264_fua.cpp:40-78 | Indicator and FU header carry type 28, the S and E bits, and between them the whole NAL header |
| `Fua.CountIff` | src/rtp/h264_fua.cpp:58-66 | A fragment is made exactly while its data begins before the end of the NAL; there are at least two |
| `Fua.WholeIff` | src/rtp/h264_fua.cpp:22-26 | A NAL is sent as it is if and only if it is no longer than the MTU |
| `Fua.FragmentNal` | src/rtp/h264_fua.cpp:10-97 | The loop produces the fragments in closed form: ceil((len-1)/(mtu-2)) of them, or the NAL itself if it fits |
| `Fua.FragmentBounds` | src/rtp/h264_fua.cpp:58-92 | No payload is longer than the MTU; S only on the first fragment, E only on the last, never both |
| `Fua.RejoinFragments` | src/rtp/h264_fua.cpp:40-97 | Round trip: rejoined fragments with the rebuilt header are the NAL |
| `Packetizer.WriteHeader` | src/rtp/packetizer.cpp:18-61 | Stores twelve octets into the buffer and leaves the rest alone |
| `Packetizer.BuildPacket` | src/rtp/packetizer.cpp:63-79 | A fresh buffer holds header and payload and nothing else |
| `Packetizer.ParseBuilt` | src/rtp/packetizer.cpp:18-79 | Round trip: the first twelve octets decode to the fields, and the rest is the payload |
| `Streamers.UdpSocket.Send` | src/rtp/streamer.cpp:83-84 | One more datagram is offered, and taken whole or refused, which is not up to the program: which attempts are refused is fixed from the start |
| `Streamers.Streamer.Connect` | src/rtp/streamer.cpp:33-45 | Connects or stays as it was |
| `Streamers.Streamer.SendNal` | src/rtp/streamer.cpp:47-92 | The socket is offered the packets of fragments 0, 1, ... of the NAL, each with its header, up to the first that it refuses, and no others; true if and only if it refuses none of them, and then all are on the wire; the history gets one more Send |
| `Streamers.Streamer.SendFragment` | src/rtp/streamer.cpp:64-88 | One packet uses up one sequence number and is offered to the socket; true if and only if the socket does not refuse it |
| `Streamers.WireIsTaken` | src/rtp/streamer.cpp:83-88 | The wire that a receiver listens to is what the socket took of the offers |
| `Streamers.Streamer.AdvanceTimestamp` | src/rtp/streamer.cpp:94-98 | Moves the clock modulo 2^32 and nothing else |
| `Streamers.ReplayCounters` | src/rtp/streamer.cpp:61-98 | After any run the sequence number is the drawn one plus the packets built, mod 2^16, and the time the sum of all steps, mod 2^32 |
| `RtpClock.ClockAfter` | src/media/hub.cpp:151-158 | Driven by the hub, the clock stands at the increment times the frames so far, mod 2^32 |
| `RtpClock.FrameCount` | src/media/hub.cpp:151-158 | The frames are the NALs of type 1 or 5 |
| `RtpClock.PacketsOfNal` | src/rtp/streamer.cpp:61-98 | Closed form of packet k of a run: sequence s0 + k mod 2^16, constant SSRC, marker exactly on the last fragment, one timestamp per NAL that counts the frames broadcast earlier |
| `Receivers.SequenceSame` | src/rtp/streamer.cpp:75 | Two packets have the same number exactly if they are a multiple of 65536 packets apart |
| `Receivers.ReceivesOutput` | src/rtp/streamer.cpp:47-92 | For every loss pattern and every failed send: what the receiver outputs and holds, in terms of the pattern alone |
| `Receivers.ReceivesWhatArrived` | src/rtp/streamer.cpp:47-92 | Under every loss and every failed send, the receiver outputs exactly the NALs all of whose fragments arrived if and only if the losses splice no NAL together |
| `Receivers.NoBurstNoSplice` | src/rtp/streamer.cpp:75 | There is no splice if no loss in the middle of a NAL is a positive multiple of 65536 packets long |
| `Receivers.ArrivedIsSubsequence` | src/rtp/streamer.cpp:47-92 | These are a subsequence of the NALs given to send_nal |
| `Receivers.WireDelivers` | src/rtp/streamer.cpp:47-92 | With no loss the receiver outputs exactly the NALs for which send_nal returned true; all of them if none failed |
| `Receivers.LongBurstSplices` | src/rtp/streamer.cpp:75 | A loss of a positive multiple of 65536 packets, from the middle of a NAL kept so far to the final fragment of a NAL, makes the receiver output the beginning of one with the end of the other |
| `Splice.BurstMakesNewNal` | src/rtp/streamer.cpp:75 | Runs of the sender and losses after which the receiver outputs one NAL, and one that was never sent |
| `FileRuns.FileNeverEnds` | src/media/file_source.cpp:48-94 | If the sources of a hub run loop over a file with two start codes, no read_nal of the run returns false |
| `FileRuns.NextCallBegins` | src/media/hub.cpp:121-124 | Such runs exist as far as one likes: a pump that finds running_ set can go on to the call that is next on its source |
| `FileRuns.RunPlays` | src/media/hub.cpp:118-140 | In every run over a file, what was broadcast of a source and what is due of it is what the calls play that have begun on it |
| `FileRuns.BroadcastIsOfLoop` | src/media/hub.cpp:118-140 | Everything that was broadcast in a run over a file is played by the calls that have begun, whose NALs are a prefix of the NAL list repeated for ever |
| `EndToEnd.HandedIsLoopSlice` | src/media/hub.cpp:118-159 | In every run over a file, also one with a single NAL, what the hub hands to a streamer is a contiguous slice of the NAL list repeated for ever |
| `EndToEnd.CallsOfHub` | src/media/hub.cpp:151-158 | The calls of on_nal on one subscriber send the broadcast NALs, each once and in order |
| `EndToEnd.EndToEnd` | src/media/file_source.cpp:48-94 | From the octets of any file whose NALs have types 1 to 23 to every viewer: a contiguous slice of the endless repetition of its NAL list is output exactly if nothing fails or is lost; otherwise just the NALs of it that arrived, if and only if the losses splice none together |
| `Base64.Base64Encode` | src/util/base64.cpp:10-51 | The loop and the tail compute the encoding, which decodes to the input |
| `Base64.DecodeEncode` | src/util/base64.cpp:10-51 | Round trip with the decoder of section 4 of RFC 4648, for every input |
| `Base64.EncodeShape` | src/util/base64.cpp:10-51 | Four characters per three octets begun, all of the alphabet or padding |
| `Sdp.Build` | src/sdp/builder.cpp:16-74 | Appends the ten lines of the description, with the sprop part exactly if it is known |
| `Sdp.ParameterSetsSurvive` | src/sdp/builder.cpp:62-66 | Round trip: cutting the value out of the fmtp line, splitting at the comma and decoding gives exactly the octets of both sets, or none if either is missing |
| `Sdp.StreamIsNamed` | src/sdp/builder.cpp:45-66 | Media line, rtpmap line and fmtp line name one payload type, that of the stream, and map it to H.264 at its clock rate |
| `ParameterSets.SetOnce` | src/media/hub.cpp:142-147 | What is cached never changes |
| `ParameterSets.KeepsFirst` | src/media/hub.cpp:142-147 | The cache holds the first SPS and the first PPS that were looked at |
| `ParameterSets.ParameterSets.OnNal` | src/media/hub.cpp:134-147 | One NAL updates the cache like the specification |
| `ParameterSets.ParameterSets.Prescan` | src/media/hub.cpp:161-187 | Looks at the pieces of the file one after the other, exactly until both sets are found, 64 reads have succeeded or the last piece is read |
| `ParameterSets.ParameterSets.Sprop` | src/media/hub.cpp:195-202 | The text is that of the cached sets, or empty if one is missing |
| `CachedSets.FirstSeenIsFirst` | src/media/hub.cpp:134-147 | In every run of the hub over a file, the first NAL of a type that is broadcast, of whatever source, is the first of that type in the file |
| `CachedSets.CacheIsOfFile` | src/media/hub.cpp:134-202 | In every run of the hub over a file: what prescan and then every broadcast have cached is the file's first SPS and first PPS, or one is missing; a client takes exactly their octets out of the description |
| `CachedSets.DescribeGivesFile` | src/rtsp/session.cpp:224-237 | And a session of such a hub answers DESCRIBE so that the client has the file's first SPS and first PPS |
| `Text.SearchIff` | src/rtsp/parser.cpp:70-80 | A search finds the leftmost occurrence and nothing else |
| `Text.LineEnd` | src/rtsp/parser.cpp:70-80 | The first line end behind a line is its own, even if the line ends in a carriage return |
| `Text.Trim` | src/rtsp/parser.cpp:28-36 | Both loops cut all white space off both ends |
| `Text.TrimIff` | src/rtsp/parser.cpp:28-36 | What is left is the only part that is free of white space at both ends |
| `Text.StoiDecimal` | src/rtsp/parser.cpp:159-169 | Reading a printed int gives the int |
| `Text.StoiIff` | src/rtsp/parser.cpp:159-167 | std::stoi on every text: it throws if and only if the text does not begin with white space, perhaps a sign and a digit, or the number is not an int; otherwise it gives that number |
| `Text.HeadEnd` | src/rtsp/response.cpp:17-124 | The first empty line behind lines is the one that closes them, whatever follows |
| `Parser.ParseRequest` | src/rtsp/parser.cpp:85-172 | The sliding loop computes the parse that the round trip is about, on every input, also malformed and throwing ones |
| `Parser.ParsePrinted` | src/rtsp/parser.cpp:85-172 | Round trip: a printed request, with any capitalization of the name of its method, parses to itself; and with any name that is none of the seven to an unknown method |
| `Parser.MethodNames` | src/rtsp/parser.cpp:53-62 | Each of the seven methods stands for its own name, in any capitalization, and for nothing else |
| `Parser.MalformedIff` | src/rtsp/parser.cpp:85-133 | On every text: it is malformed if and only if its first line is not token, space, URI, space and RTSP/; otherwise method and URI are those of the line |
| `Parser.LastLineCounts` | src/rtsp/parser.cpp:135-150 | On every list of lines: of lines with the same name the last one counts, and none behind the empty line |
| `Parser.LookupIff` | src/rtsp/parser.cpp:174-183 | Nothing is looked up if and only if no name equals it but for case |
| `Parser.CSeqIs` | src/rtsp/parser.cpp:152-169 | Without a CSeq the number is 0, and CSeq in just this spelling counts before any other |
| `Parser.CSeqOfPrinted` | src/rtsp/parser.cpp:152-169 | A CSeq field with a printed int is found under any capitalization and gives the int |
| `Parser.OnlyOne` | src/rtsp/parser.cpp:174-183 | A field whose name is unique up to case is looked up under any capitalization |
| `Parser.ParsedUriIsWord` | src/rtsp/parser.cpp:112-118 | The URI of a parsed request holds no space and no line end |
| `Responses.PortIsStored` | src/rtsp/session.cpp:53-80 | After parsing, whether accepted or not, the stored RTP port is the number read first, and the old one if there is none |
| `Responses.SinglePort` | src/rtsp/session.cpp:64-79 | A single port is stored in any case, with its successor, and accepted exactly from 1 to 65535 |
| `Responses.TwoPorts` | src/rtsp/session.cpp:53-80 | What becomes of a pair of ports, anywhere in a Transport header and whatever is written there: the first is stored if it can be read, also if the second cannot; accepted exactly if both can and the first is from 1 to 65535 |
| `Responses.OnePort` | src/rtsp/session.cpp:53-80 | Likewise for a single port |
| `Responses.ParsePrintedTransport` | src/rtsp/response.cpp:65-88 | Round trip: parse_transport gives back the client ports that setup prints |
| `Client.OkReads` | src/rtsp/response.cpp:17-32 | The 200 responses are read whole, with their CSeq, whatever follows; likewise teardown |
| `Client.OptionsReads` | src/rtsp/response.cpp:34-43 | Likewise the OPTIONS response |
| `Client.DescribeReads` | src/rtsp/response.cpp:45-63 | Likewise the DESCRIBE response, for every body and every base without a line end |
| `Client.SetupReads` | src/rtsp/response.cpp:65-88 | Likewise the SETUP response |
| `Client.PlayReads` | src/rtsp/response.cpp:90-101 | Likewise the PLAY response |
| `Client.ErrorReads` | src/rtsp/response.cpp:112-124 | Likewise the error responses |
| `Client.ReadsAll` | src/rtsp/response.cpp:17-124 | A client that reads to the first empty line and then Content-Length characters recovers the list of responses from their concatenation |
| `Client.ReadFields` | src/rtsp/response.cpp:17-124 | The status line and the fields of a response, in order and with their values, can be read back from its text |
| `Handshake.SetupSays` | src/rtsp/response.cpp:65-88 | The SETUP response, read back, is a 200 with exactly the CSeq, Session and Transport fields that were to be sent |
| `Handshake.SessionIdOfParameters` | src/rtsp/session.cpp:82-90 | The id is recognized bare and with parameters behind a semicolon |
| `Handshake.SetupThenPlay` | src/rtsp/session.cpp:239-307 | The handshake works out: the SETUP response names the announced ports and an id, and a PLAY with that id starts a stream to the announced port if the hub can subscribe |
| `Handshake.DescribeDelivers` | src/rtsp/session.cpp:224-237 | The body that a client reads off the DESCRIBE response gives it exactly the octets of the parameter sets of the hub, and nothing if one is missing or there is no hub |
| `Handshake.Codes` | src/rtsp/session.cpp:189-329 | Each of the codes 501, 455, 454, 400, 461, 500 and 200 is given exactly in its case; OPTIONS, DESCRIBE and GET_PARAMETER are refused in no state |
| `Handshake.WrongSessionIff` | src/rtsp/session.cpp:271-329 | An allowed PLAY, PAUSE or TEARDOWN is answered 454, and changes nothing, if and only if it has no Session field, or one that is not the id with nothing or a semicolon behind it |
| `Handshake.OnlyOwnRequestsAct` | src/rtsp/session.cpp:271-329 | Over every run from the start: once there is an id, only a PLAY, PAUSE or TEARDOWN under this id changes state or stream; under another one they do nothing and are answered 454 or 455 |
| `Answers.AnswerSays` | src/rtsp/response.cpp:17-124 | What a session answers, read back field by field: the CSeq of the request in every case; and in a 200 just the fields that the method asks for, under the id of the session |
| `Answers.MalformedIs400` | src/rtsp/session.cpp:143-148 | A text that is no request is answered 400 under the number 0 and changes nothing |
| `Answers.StreamIsAnnounced` | src/rtsp/session.cpp:224-237 | The description that a client reads names the payload type of the RTP packets in all three places, as H.264 at 90000 ticks a second |
| `Framing.CutIsPartition` | src/rtsp/session.cpp:130-139 | Cutting loses and invents nothing, every request ends at its first empty line and the rest holds none |
| `Framing.CutIsOnly` | src/rtsp/session.cpp:130-139 | That is the only such cut |
| `Framing.CutAppend` | src/rtsp/session.cpp:121-139 | Cutting what has arrived and later the remainder with what follows is cutting everything at once |
| `Framing.PrefixIsWithin` | src/rtsp/session.cpp:121-139 | If no request nor the final rest exceeds a limit, the buffer never did |
| `Framing.PrintedIsRequest` | src/rtsp/session.cpp:130-139 | A printed request is cut out whole |
| `Protocol.ServeAppend` | src/rtsp/session.cpp:132-159 | Requests served one after the other are served as one list, unless the first ones end the session |
| `Protocol.HandleKeepsInv` | src/rtsp/session.cpp:165-329 | INIT has no id, READY and PLAYING have one, and PLAYING holds exactly while there is a streamer |
| `Protocol.Transitions` | src/rtsp/session.cpp:165-329 | The state changes exactly along the documented table, each change exactly under its condition, where a Session field must say the id, bare or with parameters; CLOSED is absorbing |
| `Protocol.IdIsSetOnce` | src/rtsp/session.cpp:250-254 | The id is given by the first accepted SETUP and never changes |
| `Protocol.RejectedSetup` | src/rtsp/session.cpp:239-248 | A SETUP that is turned down keeps state, id and stream; the ports become what parse_transport stored |
| `Protocol.ServeKeepsInv` | src/rtsp/session.cpp:102-160 | Over every run: the invariant holds, the id once set stays, CLOSED stays, INIT is never reached again |
| `Protocol.ServeAnswers` | src/rtsp/session.cpp:132-159 | Every request taken is answered by exactly one response, in order, under its CSeq, or 0 if it cannot be parsed; the one exception is a CSeq at which std::stoi throws |
| `Protocol.ClientReadsServed` | src/rtsp/session.cpp:132-159 | A client recovers exactly the list of responses from what it receives, whatever the requests were |
| `Closings.ClosingIff` | src/rtsp/session.cpp:132-160 | Over every run: serving ends the session if and only if it is CLOSED then, which is exactly if the last request taken is a TEARDOWN answered 200; no earlier one was, and nothing behind it is taken or answered |
| `PortHistory.TurnedDownIs461` | src/rtsp/session.cpp:245-248 | The SETUPs that the ledger counts as turned down are exactly those answered 461 |
| `PortHistory.ServeTracks` | src/rtsp/session.cpp:53-80 | Over every run the stored port is what the ledger of the SETUPs says |
| `PortHistory.StreamPortIff` | src/rtsp/session.cpp:279-307 | Over every run from the start: a stream goes to the port of the last accepted SETUP if and only if no number could be read in the SETUPs answered 461 since, or the last such number is that port modulo 65536 |
| `PortHistory.StreamStays` | src/rtsp/session.cpp:165-187 | While a session is PLAYING nothing moves its stream |
| `PortHistory.RejectedSetupMovesStream` | src/rtsp/session.cpp:68-79 | Three requests as a client prints them, after which a fresh session streams to a port that no accepted SETUP named |
| `PlayHistory.PlaysIff` | src/rtsp/session.cpp:279-307 | Over every run from the start: a PLAY that is answered 200 makes the session play if and only if there is a hub and it subscribes the streamer; otherwise the session is where it was, READY |
| `PlayHistory.PlayAnsweredNotPlaying` | src/rtsp/session.cpp:293-300 | A SETUP and a PLAY as a client prints them, both answered 200, after which a fresh session plays or is still READY, as the hub answers |
| `Sessions.World.PumpSends` | src/media/hub.cpp:118-159 | What the pumps send meanwhile are packets of streamers to whom the hub handed something meanwhile; all of these were greeted |
| `Sessions.World.AskSprop` | src/media/hub.cpp:195-202 | By some run of the hub with this one call: the text of the sets that are cached |
| `Sessions.World.Subscribe` | src/media/hub.cpp:61-91 | With either answer, by some run of the hub with this one call: the list grows by the streamer, or is as it was; true if and only if running_ was set when it was read, or the source started; the streamer's own PLAY has been answered |
| `Sessions.World.Unsubscribe` | src/media/hub.cpp:93-116 | By some run of the hub with this one call: the streamer is gone from the list and nobody else |
| `Sessions.Session.StopStreaming` | src/rtsp/session.cpp:107-116 | Takes the session's own streamer off the hub, and may be called at any time |
| `Sessions.Session.OnDisconnect` | src/rtsp/session.cpp:102-105 | Closes the session and leaves no subscription |
| `Sessions.Session.ParseTransport` | src/rtsp/session.cpp:53-80 | Writes the stored ports as the specification says, before the range test |
| `Sessions.Session.HandleDescribe` | src/rtsp/session.cpp:224-237 | Asks the hub, and answers with the description of its parameter sets under the requested URI |
| `Sessions.Session.HandleSetup` | src/rtsp/session.cpp:239-269 | Stores ports, id and state like the specification |
| `Sessions.Session.HandlePlay` | src/rtsp/session.cpp:279-307 | Sends the 200 and only then subscribes; a streamer that is held afterwards was made for this very 200, which precedes each of its packets; with a hub, a 200 leads to PLAYING if and only if running_ was set when subscribe read it, or the source started |
| `Sessions.Session.HandlePause` | src/rtsp/session.cpp:309-318 | Gives up the streamer and goes back to READY |
| `Sessions.Session.HandleTeardown` | src/rtsp/session.cpp:320-329 | Gives up the streamer and closes |
| `Sessions.Session.Handle` | src/rtsp/session.cpp:189-218 | Dispatch: state, response and hub change like the specification |
| `Sessions.DrainFirst` | src/rtsp/session.cpp:132-159 | Serving the buffer is serving its first request and then the buffer behind it |
| `Sessions.Session.Answer` | src/rtsp/session.cpp:138-158 | One request is answered: 400 if it is malformed, nothing if its CSeq throws, and by the dispatch otherwise; exactly what is sent is entered as said by this session |
| `Sessions.Session.TakeRequest` | src/rtsp/session.cpp:138-158 | One turn of the loop takes one request off the buffer and sends its response |
| `Sessions.Session.StreamerPlayedFirst` | src/rtsp/session.cpp:290-295 | The streamer that a session holds was made for a PLAY that this session answered with 200 under its id, and none of its packets was sent before |
| `Sessions.Session.Feed` | src/rtsp/session.cpp:121-160 | The loop does what cutting the buffer and serving all its requests does, and ends the session if and only if it is CLOSED then; the hub loses or gains only the streamer of this session, and one that it gains was made and answered meanwhile, before its first packet; history only grows |
| `Sessions.FeedClosesIff` | src/rtsp/session.cpp:121-160 | One call of feed ends the session if and only if the last request that it took off the buffer is a TEARDOWN answered 200; what is behind it stays in the buffer |
| `Chunks.OverflowIff` | src/rtsp/session.cpp:121-160 | For all reads and requests: the buffer overflows if and only if at one of the reads the session still listens and what the one-shot cut leaves of the stream so far is, with the read, longer than it; in every other case feeding read by read gives what serving the whole stream gives |
| `Chunks.ChunkIndependence` | src/rtsp/session.cpp:121-160 | So with requests and rest of at most 61441 characters and reads of at most 4096, feeding read by read gives what serving the whole stream gives, and the buffer never overflows |
| `Chunks.FeedKeepsText` | src/rtsp/session.cpp:121-139 | Requests taken and buffer together are what came in, and while listening the buffer holds no complete request |
| `Overflow.OneLongerOverflows` | src/rtsp/session.cpp:124-128 | That bound is sharp: a stream with a request of 61442 characters, and reads of it at which the buffer overflows before the request is answered, though served at once it is |
| `Servers.MovedKeepsTidy` | src/rtsp/server.cpp:125-200 | What one client does with its streamer leaves the correspondence of the others with the hub intact |
| `Servers.Server.Accept` | src/rtsp/server.cpp:150-175 | Under a free descriptor, a registered client is entered with a session at its start; one that cannot be registered is gone at once; nobody else changes |
| `Servers.Server.DropClient` | src/rtsp/server.cpp:125-133 | The client leaves the map and its streamer the hub, and nobody else does; nothing is said |
| `Servers.Server.FeedClient` | src/rtsp/server.cpp:197-200 | A read changes its own session as specified and no other |
| `Servers.Server.Dispatch` | src/rtsp/server.cpp:147-201 | Event by event: a client that hangs up or has no more to read is gone, and its streamer off the list; a read feeds the session, which stays as it is then if it listens and is gone if not; an arrival enters a fresh session exactly if it is registered and the descriptor is free; nobody else changes |
| `Servers.Server.Read` | src/rtsp/server.cpp:189-200 | A read feeds its own session, whose client is dropped exactly if feed returned false |
| `Servers.Server.Serve` | src/rtsp/server.cpp:135-201 | Any events make of the clients, and of all that is said, what folding the events one after the other makes of them |
| `Servers.Server.Shutdown` | src/rtsp/server.cpp:204-207 | After the map is cleared nobody is subscribed, no pump of the hub is live and no source is started |
| `Servers.Server.Run` | src/rtsp/server.cpp:135-210 | For any events: everything said to anyone is what the fold of the events says, in order; the process lives exactly if the fold does, and then there are no clients, no subscribers, no live pump and no started source at the end |
| `Servers.Server.SubscribersArePlaying` | src/rtsp/server.cpp:115-201 | The subscribers are, without duplicates, exactly the streamers of the PLAYING sessions in the map; each was made for a PLAY that its own session answered with 200 before any of its packets; and no packet of any streamer preceded the 200 of its own session |
| `Visits.ClientAlone` | src/rtsp/server.cpp:147-201 | Whatever the other clients do: a client is told exactly what its own octets, fed to a fresh session read by read, are answered, which without an overflow is what serving its requests at once answers; and it is there as long as its session listens and it has not left |

## Left out

- Visits.ClientAlone: is about events after which the process still lives, for a CSeq at which `std::stoi` throws ends it for every client.
- Sockets, epoll, files and logging: calls into the system are arbitrary answers; the camera process is a source whose `read_nal` may end at any time.
- A `fread` that returns nothing before the end of the stream, and a null `FILE*`: the retry loop of `fill` would wait, and the callers never pass null.
- Sleeping: only the time at which the next frame is due is kept, not the waiting for it.
- Random draws of SSRC, first sequence number and session id: arbitrary values; an id is any eight upper-case hexadecimal digits.
- Iteration order of `unordered_map`: headers are kept in the order in which their names first came, which matters only between names that differ in case; the round trips require names that are unique up to case.
- Parser.ParsePrinted: the request must say of itself what its headers say about CSeq, which every parsed request does.
- A CSeq at which `std::stoi` throws ends the process; the model stops there and says nothing about the termination of the threads.
- Signed overflow of a single port plus one: the model adds without wrap-around (the source's behaviour for 2147483647 is undefined).
- Case mapping and white space of other locales than "C"; a character is one octet.
- Concurrent `subscribe` or `unsubscribe` from several control threads: the server has one.
- The C++ memory model: every shared access is one atomic step, and the flag is sequentially consistent.
- Termination of `subscribe` and `unsubscribe` under an unfair mutex: what is proved is that the waited-for thread can always go on and that joins are bounded in its steps.
- Sessions.World.Subscribe: whether the source starts is an answer from outside; the hub takes one of the interleavings that give it.
- Reordering and duplication of UDP packets: the receiver is given a subsequence of what was sent, in order.
- A file that changes while it is played: `CachedSets.CacheIsOfFile`, too, is about one content.
- Sessions.World.AskSprop: which sets the hub has cached is an answer from outside; `CachedSets.DescribeGivesFile` is about the sets that a run over a file has cached.
- EndToEnd.EndToEnd: is about runs in which every source is a file source over one content that was started at its beginning; that one whose `fopen` fails makes no run is the answer `choice` of `HubProtocol`.
- The destructor of a client in `Servers.Server.Shutdown` also closes the session, which the source's destructor does not bother to do; the session is gone in the next step.
- RTCP, authentication, the tools and the planned SUNAPI and ONVIF features.

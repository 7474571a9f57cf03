# ShadeVPN native core: a Dafny model

This project models the byte-level protocols and state machines of ShadeVPN's native Rust layer and proves
what they promise: that every payload put into the tunnel comes out unchanged, exactly when the numbers of
frames written or records sealed repeat within a session, that two runs of the pump never overlap, that a
handshake completes at most once,
and that TLS application keys exist only behind a verified server flight.

How the modules follow the source:

| modules | source |
|---|---|
| `Bytes`, `Varint`, `RequestHeader`, `Vision`, `VisionIo`, `VlessStream` | `native/src/vless.rs`: request header, Vision framing, the two stream ends |
| `Transport` | `native/src/transport.rs`: length-prefixed frames |
| `ClientHello`, `HelloReader`, `HelloGrammar` | `native/src/tls.rs`: ClientHello layout, builder, parser, and the grammar of what it accepts |
| `Primitives`, `Reality`, `Handshake`, `CompletionRace` | `native/src/reality.rs`, `native/src/handshake.rs` |
| `RealityReference`, `HonestPeer` | `native/src/test_server.rs`: the session's key material in literal bytes, and the honest server as the other party |
| `Pump`, `PumpTraces`, `PumpFates`, `PumpStreams`, `PumpReplays`, `PumpOutbound`, `PumpHalt` | `native/src/pump.rs`: the two threads of every run and their atomics; building interleavings; what becomes of every packet read; what is delivered, and what replays do to that; what is written; the halt slot |
| `TunnelSession`, `TunnelService` | `native/src/lib.rs`: session counters; whole sessions of probes and a pump run over the record layer against the honest server |
| `RecordLayer`, `KeySchedule`, `Der`, `TlsReference`, `ServerFlight`, `Tls13Client`, `TlsHistory`, `HonestTls` | `native/src/tls13.rs` and the RFC 8446 server it talks to |
| `WireForms` | the byte layouts of `vless.rs`, `transport.rs`, `tls.rs` and `tls13.rs` as the other end writes them |

Conventions. Objects whose methods update fields are classes with a `View()` into a datatype, and each method
is proved against a function on that datatype; the laws are then lemmas about those functions. Cryptographic
primitives are function values constrained by a `Lawful` predicate (opening inverts sealing and accepts nothing
else, key agreement commutes, outputs have fixed lengths), and a lemma exhibits an instance, so the laws are
consistent. The other party never shares a function with the client where the two must agree on bytes: the
honest servers and the wire forms are written with literal labels, code points and offsets (`TlsReference`,
`RealityReference`, `WireForms`, `HonestTls`, `HonestPeer`), lengths as base-256 digits (`Bytes.Digits`), and
lemmas show that the client's functions compute the same. Random draws, clocks, peer input, I/O outcomes and thread scheduling are universally quantified
inputs. A Rust panic is a distinct error value (`PaddingUnderflow`, `BuildAborted`, `SliceOutOfRange`,
`Aborted`). Machine words are 64 bits wide and wrap as in a release build.

Where the code and its comments disagree, the model follows the code:

- Long Vision padding brings content plus padding to 900..1399 bytes (`native/src/vless.rs:517-518`); the comments say the draw ends below 900.
- Once locked on, the reader never checks the identity again, although a comment speaks of rejecting a boundary buffer (`native/src/vless.rs:541-545`).
- A stream that ends inside a frame's length prefix reads as a clean end (`native/src/transport.rs:61-63`).
- A DER length byte of exactly 0x80 reads as a short length of 128 (`native/src/tls13.rs:813-837`).

Results that turned out to have a boundary, stated exactly:

- The header round trip holds if and only if flow and domain fit their one-byte length fields (`RequestHeader.ParseInvertsBuild`).
- The hello round trip holds if and only if the handshake length fits 16 bits, and the build aborts on exactly one server-name length, 141 bytes (`ClientHello.ParseInvertsBuildHello`, `ClientHello.PaddingUnderflowsOnlyAt141`).
- A sealed application record opens to its payload if and only if the payload has at most 65518 bytes (`RecordLayer.AppRoundTrip`).
- Frame numbers under a handshake are 0, 1, 2, ... if and only if the counter stood at zero on connecting, because connecting does not reset it (`TunnelSession.SessionNumbersAreContiguous`).
- Over any probes and pump runs of one session in any order, the numbers of the records sealed are pairwise distinct if and only if none is sealed by an activity called after a run that sealed one or after a probe whose write failed, since neither moves the session's counter; for frames fully written the condition is that none is written after a run that wrote one (`TunnelSession.NumbersAreDistinctExactlyIfNothingAfter`).
- The honest VLESS server accepts a session's frames if and only if no probe frame was written before the run, and the run's header was not lost or its bare packets happen to read as a request of this identity and its stream (`TunnelService.VlessSessionAccepted`): the data-plane probe is a raw record, which the VLESS leg refuses for every identity (`TunnelService.ProbeIsRefused`). The application always probes before starting the pump (`app/src/main/java/com/shadevpn/android/ShadeVpnService.kt:138-147`) and connecting always sets the VLESS parameters (`native/src/lib.rs:272-274`), so that server ends such a session at its first record. In raw mode probes and run are served together (`TunnelService.RawSessionIsServed`).
- Short of a collision of the truncated hash on exactly their preimages, two record nonces are equal if and only if session id, number, direction and purpose are (`RealityReference.NonceRepeatsOnlyByCollision`); so the nonces a whole session seals under are pairwise distinct exactly when its numbers are (`TunnelService.SessionNoncesDistinctExactlyIf`).
- A probe succeeds if and only if its frame was written and what came back opens at the inbound number to the probe's own bytes (`TunnelSession.ProbeSucceedsExactlyIf`); against the honest raw server every undisturbed probe does (`TunnelService.HonestProbesSucceed`).
- A packet read from the TUN is dropped if and only if the shield is up and its first byte is 0x60 to 0x6f; every other one goes to the seal, in order (`PumpFates.FateOfEveryPacket`).
- A first completion succeeds if and only if the response has 144 bytes or more, its certificate carries the right MAC, its share gives a usable agreement and its rest opens as the server's record zero (`RealityReference.AcceptedExactlyIf`).
- The hello parser accepts a wire if and only if the grammar writes it (`HelloGrammar.AcceptedExactlyIfWritten`); a key_share list's declared length may end inside its last share (`native/src/tls.rs:538-554`).
- An application record opens to some data if and only if a peer with the key sealed exactly that (`RecordLayer.OpensExactlyIf`).
- Once no thread can move, `running` is up if and only if some start failed to clone its socket (`Pump.RunningAtRest`); such a pump refuses every later start (`Pump.FailedCloneWedgesThePump`).
- Whatever frames are injected, repeated or reordered, deliveries are a prefix of the server's payloads if and only if the first record the stream end rejects, if any, is rejected on every replay as well (`PumpReplays.InOrderExactlyIfReplaysFail`). Raw mode and the honest server reject nothing (`PumpStreams.RawIsFluent`, `PumpStreams.HonestStreamIsFluent`). First records refused for their identity, and framed ones rejected for their response header, come through on a replay (`PumpReplays.MismatchIsDangerous`, `PumpReplays.RejectedResponseIsDangerous`); frames with a body and an unknown command, and oversized frames under an identity that itself reads as oversized, never do (`PumpReplays.UnknownCommandIsSafe`, `PumpReplays.OversizedIsSafe`).
- The first frame a VLESS run writes carries the request header if and only if the wrap that took the header was sealed; later failed seals change nothing (`PumpOutbound.WrittenFramesCarryThePackets`).
- A thread of another run can shut a run's socket if and only if, when the run's start fills the halt slot, that other run has a half that has lowered `running` and has yet to take its closing step (`PumpHalt.StruckExactlyByALateClosingStep`); `PumpHalt.ClosingStepShutsANewerRun` exhibits such an interleaving.
- An accepted TLS flight's signature is over the transcript before its last CertificateVerify (`ServerFlight.AcceptedFlightIsVerified`), which goes through the last Certificate if and only if that came first (`ServerFlight.SignedThrough`); the client accepts the other order too (`HonestTls.LateCertificateIsAccepted`).
- Over every sequence of client calls two records go out under the same key, IV and nonce if and only if the channels they were sealed under were set up alike and as many records were sealed under each since, modulo 2^64 (`TlsHistory.NonceRepeatsExactlyIf`); so never between two accepted flights within 2^64 records (`TlsHistory.NoRepeatUnderOneSetUp`), but always when ServerHello, shared secret and flight are given again (`TlsHistory.ReplayingTheFlightRepeatsTheChannels`).
- The completion flag is up exactly while some call owns it, finished or not (`CompletionRace.FlagUpExactlyWhileOwned`), so it can be seen up, with the keys set, before a confirmation fails (`CompletionRace.FlagAndKeysBeforeARejection`).
- A response that fails only its confirmation ends the handshake for good (`CompletionRace.FailedConfirmationIsFinal`).

## Model

| member | source | states |
|---|---|---|
| Varint.EncodeVarint | native/src/vless.rs:415-428 | the loop appends the base-128 groups whose value is the number |
| Varint.DecodeVarint | native/src/vless.rs:430-444 | the shift-and-or loop returns the word-truncated value of the groups up to the first terminator among ten bytes, or fails |
| Varint.DecodeInvertsEncode | native/src/vless.rs:415-444 | decoding inverts encoding for every 64-bit value with any suffix |
| WireForms.VarintOnTheWire | native/src/vless.rs:415-428 | the literal bytes of every value below 16384 |
| Bytes.PutU64Digits | native/src/handshake.rs:346-367 | the eight bytes of a number are its base-256 digits, most significant first |
| Bytes.PutU32Digits | native/src/transport.rs:46-55 | the same for the four bytes of a frame length |
| RequestHeader.BuildRequestHeader | native/src/vless.rs:129-165 | the pushed bytes are the header layout, casts included |
| RequestHeader.ParseRequestHeader | native/src/vless.rs:169-237 | the cursor-driven parser computes the header grammar, every error included |
| RequestHeader.ParseAddress | native/src/vless.rs:249-282 | an accepted address has the sizes and UTF-8 validity of its type |
| RequestHeader.RequestHeaderLen | native/src/vless.rs:292-325 | the length calculator computes the claimed extent, with the word wrap of the addons offset |
| RequestHeader.ParseInvertsBuild | native/src/vless.rs:129-237 | parsing a built header with any suffix returns its fields if and only if flow and domain fit one byte of length |
| RequestHeader.AcceptedRequestsRebuild | native/src/vless.rs:129-282 | every request the parser accepts has typed fields, and building and parsing it again gives it back, but for an empty flow name, which becomes none |
| WireForms.HeaderOnTheWire | native/src/vless.rs:35-165 | the literal bytes of every built header: version 0, identity, field 0x0a, command, big-endian port, address types 1, 2 and 3, and nothing after the command 0x0f |
| WireForms.MuxDestination | native/src/vless.rs:212-220 | a mux header parses to the literal host v1.mux.cool and port zero, whatever destination it was built with |
| WireForms.ResponseOnTheWire | native/src/vless.rs:285-287 | the literal response header, and that only its length and version are checked |
| WireForms.Utf8ExactlyIfEncoded | native/src/vless.rs:249-282 | what passes as text is exactly what encodes some list of Unicode scalar values |
| RequestHeader.ExtentInvertsBuild | native/src/vless.rs:289-325 | the calculated length of a built header with any suffix is the header's length if and only if the domain fits |
| RequestHeader.ExtentBoundedByAcceptance | native/src/vless.rs:292-325 | whenever the parser accepts, the calculator accepts with a length inside the wire |
| RequestHeader.ParseReadsOnlyTheExtent | native/src/vless.rs:169-237 | bytes past the calculated length never change an accepted parse |
| RequestHeader.ExtentCanExceedTheWire | native/src/vless.rs:313-324 | without an accepting parser the length can exceed the wire |
| Vision.FeedConcat | native/src/vless.rs:624-683 | feeding a buffer in two parts equals feeding it whole: output, error and state |
| Vision.ChunkingIndependence | native/src/vless.rs:598-684 | a locked reader gives the same output, error and final state however the input is cut into calls |
| Vision.DirectIsAbsorbing | native/src/vless.rs:627 | the direct phase copies every byte and never leaves |
| Vision.ReaderRefinesGrammar | native/src/vless.rs:624-705 | from a frame boundary the byte machine computes the frame-at-a-time meaning of every input |
| Vision.GrammarCharacterisesReader | native/src/vless.rs:598-705 | the reader leaves padding on exactly the inputs of the grammar: frames ending in END or DIRECT, then raw bytes, and outputs contents then raw |
| WireForms.FrameMeans | native/src/vless.rs:44-52 | how a frame of literal layout reads, for every command, content and padding: 0 goes on, 1 and 2 end the padding, others and bodies above 2027 are refused |
| WireForms.LocksOnExactlyIf | native/src/vless.rs:598-621 | the reader locks on, refuses an identity or copies exactly by the first 21 bytes and whether this is its first call |
| VisionIo.VisionReader.Unpad | native/src/vless.rs:598-684 | one call equals the state-machine specification and keeps the reader sound |
| VisionIo.VisionReader.Consume | native/src/vless.rs:625-681 | the loop body is one machine step; the Initial arm is never needed |
| VisionIo.VisionReader.FrameFinished | native/src/vless.rs:695-705 | a finished frame dispatches on its command |
| VisionIo.EveryReachableReaderIsSound | native/src/vless.rs:546-706 | after any calls, failing ones included: fill below 5, remaining counts in 1..2027, padding flag exactly in the three padding phases, direct absorbing, output never longer than input |
| VisionIo.VisionWriter.Pad | native/src/vless.rs:475-504 | one call emits the identity at most once, then the reshaped frames, and stops padding after a forced end |
| VisionIo.XtlsPadding | native/src/vless.rs:510-536 | a frame is its header, content and zero padding of the drawn length |
| VisionIo.PaddingDraw | native/src/vless.rs:516-524 | content plus padding stays within 2027, and is 900..1399 for short content under long padding |
| WireForms.PaddingsDrawn | native/src/vless.rs:516-524 | the paddings some draw gives are exactly 900..1399 less the content for short content under long padding, and 0..255 within the bound otherwise |
| WireForms.FirstRecordHidesTheHeader | native/src/vless.rs:367-375 | a first record of header and packet below 900 bytes is 921 to 1420 bytes long for every draw |
| VisionIo.ReshapedShape | native/src/vless.rs:475-504 | max(1, ceil(n/2027)) frames, contents concatenating to the payload, each body within 2027, END only on the last frame of a forced end |
| VisionIo.UnpadInvertsPad | native/src/vless.rs:475-705 | for all flags and draws a reader in step with the writer gets the payload back and stays in step |
| VlessStream.VlessOut.Wrap | native/src/vless.rs:367-375 | the first payload rides behind the request header, later ones go through the writer |
| VlessStream.VlessIn.Unwrap | native/src/vless.rs:397-405 | the first plaintext loses its response header, later ones pass |
| VlessStream.AnswerToOpening | native/src/test_server.rs:238-274 | a record that unpads to a legal header and a payload is split exactly, every field parses back, and the reply is the payload behind a response header |
| VlessStream.FirstAnswer | native/src/test_server.rs:238-274 | the peer unpads the client's first record to header and payload, for all draws, and answers it |
| VlessStream.PeerEchoes | native/src/test_server.rs:238-283 | past padding and request the peer echoes every record and counts its bytes |
| VlessStream.SessionEchoesEveryPayload | native/src/vless.rs:338-406 | for every legal request, payload list and draws: the peer learns the request and byte count, the client gets its payloads back in order |
| VlessStream.WrappedTunReadFitsAFrame | native/src/pump.rs:253-260 | a 1500-byte TUN read wrapped with any legal header and sealed fits the transport frame limit |
| WireForms.LaterRecordsAreLean | native/src/vless.rs:367-375 | past its header a stream adds nothing once padding has ended, and at most a frame head and 255 zeros before |
| Transport.ByteStream.WriteFrame | native/src/transport.rs:46-55 | appends length prefix and payload, or as much of them as the connection takes before a write fails, or refuses an oversized payload and writes nothing |
| Transport.ByteStream.ReadFrame | native/src/transport.rs:59-74 | returns the next payload, a clean end, or an error, and what remains, for a stream that ends or breaks |
| Transport.ReadInvertsWrite | native/src/transport.rs:46-74 | reading any prefix of a written stream, ended or broken, gives exactly the frames wholly inside it |
| WireForms.FrameOnTheSocket | native/src/transport.rs:9-74 | a frame is four big-endian bytes and the payload, and the reader takes exactly the lengths up to 70000 |
| ClientHello.BuildClientHello | native/src/tls.rs:189-428 | the pushed bytes are the hello layout, or the session id is too long, or the padding subtraction underflows |
| HelloReader.ParseClientHello | native/src/tls.rs:471-586 | the nested cursor loops compute the layout reader, every error included |
| HelloReader.ParseExtensions | native/src/tls.rs:511-574 | the extension loop folds each extension's meaning and stops at the declared total |
| ClientHello.ParseInvertsBuildHello | native/src/tls.rs:189-586 | parsing a built hello returns exactly SNI, random, session id and key with TLS 1.3 on offer if and only if the handshake length fits 16 bits |
| ClientHello.PaddingUnderflowsOnlyAt141 | native/src/tls.rs:353-364 | the build aborts on exactly one server-name length |
| HelloGrammar.AcceptedExactlyIfWritten | native/src/tls.rs:471-586 | the parser accepts a wire as some hello if and only if a literal grammar writes it so: exact lengths, types and versions, the last name, the first 32-byte x25519 share, TLS 1.3 offered anywhere, and the one laxity that a share list's declared length may end inside its last share |
| WireForms.HelloOnTheWire | native/src/tls.rs:189-428 | the literal bytes of a built hello around its extensions |
| WireForms.ServerNameOnTheWire | native/src/tls.rs:206-217 | the literal bytes of the server_name extension |
| WireForms.KeyShareOnTheWire | native/src/tls.rs:342-351 | the literal bytes of the key_share extension |
| WireForms.ExtensionsInOrder | native/src/tls.rs:200-351 | the extension types of a built hello, in order, as literals |
| WireForms.PaddedTo512 | native/src/tls.rs:353-364 | padding trails and brings extensions and name overhead to exactly 512 bytes below 508, and is absent otherwise |
| WireForms.FixedExtensionsOnTheWire | native/src/tls.rs:204-335 | the literal bytes of the GREASE and supported_versions extensions |
| ClientHello.ReadExtsInverts | native/src/tls.rs:513-574 | reading an encoded extension list is folding its meaning over it |
| ClientHello.PatchEqualsRebuild | native/src/handshake.rs:198-201 | patching 32 bytes at the session-id offset equals rebuilding with that session id |
| Primitives.LawsAreConsistent | native/src/handshake.rs:29-36 | the assumed laws of the primitives have an instance |
| HonestPeer.HandshakesExist | native/src/handshake.rs:142-212 | in that instance a servable profile initiates and the fresh agreement is not all zero, so the handshake theorems apply |
| Reality.UnsealInvertsSeal | native/src/reality.rs:98-163 | unsealing returns the version, the time and the zero-padded short id |
| Reality.VerifyTemporaryCertificate | native/src/reality.rs:193-214 | the folded comparison accepts exactly the certificates whose tag is the MAC of their key |
| Handshake.NoncePreimageInjective | native/src/handshake.rs:346-367 | what is hashed into a nonce determines direction, purpose, session id and sequence number; for the nonces themselves see the next row |
| RealityReference.NonceRepeatsOnlyByCollision | native/src/handshake.rs:346-367 | two nonces are equal if and only if session id, number, direction and purpose are, or the truncated hash collides on exactly their literal preimages |
| RealityReference.RecordsAreSealedUnder | native/src/handshake.rs:306-334 | records are sealed and opened under the key of their direction and the literal nonce of their number |
| RealityReference.RecordNoncesDiffer | native/src/handshake.rs:306-367 | records at different numbers or of different directions share no nonce short of a collision |
| RealityReference.KeyMaterialAgrees | native/src/handshake.rs:229-293 | the record keys are the two halves of the key material written with literal labels |
| RealityReference.InitiatesExactlyIf | native/src/handshake.rs:142-212 | a hello is made exactly for a short id of one to eight bytes, a server key and an agreement that are not zero and a name of any length but 141 |
| RealityReference.AcceptedExactlyIf | native/src/handshake.rs:229-293 | a first completion sets its keys, exactly these, if and only if length, certificate MAC and agreement are right, and succeeds if and only if the confirmation opens as well, all at literal offsets |
| Handshake.HandshakeState.Complete | native/src/handshake.rs:229-293 | one call's effect on flag and key cell, and when it succeeds |
| CompletionRace.NextKeepsInv | native/src/handshake.rs:229-293 | every step of every interleaving keeps a single owner of the flag and never changes written keys |
| CompletionRace.CompletionIsSingleUse | native/src/handshake.rs:229-297 | under any interleaving at most one call returns Ok, its response was authentic and confirmed, and at quiescence the flag is up exactly if one did |
| CompletionRace.FlagUpExactlyWhileOwned | native/src/handshake.rs:229-297 | at every moment of every interleaving the flag is up if and only if some call owns it |
| CompletionRace.FlagAndKeysBeforeARejection | native/src/handshake.rs:270-293 | with an authentic but unconfirmed response the flag and the keys are up before the call fails |
| CompletionRace.KeysNeverChange | native/src/handshake.rs:270-304 | record keys once set stay the same through any further calls |
| CompletionRace.RejectionAfterKeyingSpends | native/src/handshake.rs:274-291 | a response that fails only its confirmation leaves the keys set and its call gone |
| CompletionRace.FailedConfirmationIsFinal | native/src/handshake.rs:237-292 | after that no call of any later interleaving succeeds |
| CompletionRace.SoloRunIsSequential | native/src/handshake.rs:229-293 | an uninterrupted call does what the sequential method does |
| HonestPeer.WireHello | native/src/handshake.rs:165-212 | the wire hello is the hello built with the sealed session id, and zeroing it recovers the sealed-over bytes |
| HonestPeer.HonestServerAccepts | native/src/test_server.rs:163-191 | the honest server accepts exactly the allowed short id and learns the client's name, time and keys |
| HonestPeer.HonestCompletion | native/src/test_server.rs:193-214 | completing against the honest response succeeds unless the fresh agreement is all zero, and the keys mirror each other |
| HonestPeer.HandshakeEstablishes | native/src/handshake.rs:142-293 | both flights together establish mirrored keys if and only if the fresh agreement is not all zero |
| HonestPeer.RecordsCross | native/src/handshake.rs:306-334 | a record sealed by either side at a number opens at the other at that number |
| HonestPeer.RunRecordLoop | native/src/test_server.rs:216-288 | the server loop over the frames computes its specification, ending at the first record that fails |
| HonestPeer.RawMirror | native/src/test_server.rs:225-287 | in raw mode the loop seals again exactly what the client sealed, and the client opens it to that |
| HonestPeer.LoopAnswers | native/src/test_server.rs:216-288 | in VLESS mode the record loop over what the client sealed is the VLESS leg over what it meant, its error included, sealed again in order |
| HonestPeer.SealingIsTransparent | native/src/test_server.rs:231-283 | with mirrored keys the sealed VLESS round trip is the plain one |
| HonestPeer.TunnelEchoesEveryPayload | native/src/test_server.rs:73-288 | handshake, records and VLESS together: every payload list comes back unchanged and the server learns the request |
| Pump.RunsNeverOverlap | native/src/pump.rs:162-167 | in every interleaving running down means no half is in its loop, looping halves belong to one run, and the counters are that run's own |
| Pump.EveryRunIsOrderly | native/src/pump.rs:232-333 | every run's written frames and sealed records have consecutive numbers, packets are conserved, no version-6 packet is sealed behind the shield |
| PumpFates.FateOfEveryPacket | native/src/pump.rs:229-285 | in every interleaving, as seen from outside: of the packets read exactly those the shield stops, by first byte 0x60 to 0x6f, are dropped, and the others go to the seal, both in order and save one in hand; sealed records are those whose seal did not fail, written frames the first of these; the statistics count exactly this |
| PumpFates.SealedExactlyWhatPasses | native/src/pump.rs:229-285 | where no seal fails, what is sealed is exactly what was read and not stopped |
| PumpFates.FirstPacketIsWritten | native/src/pump.rs:229-285 | for every configuration and every packet that is not stopped, such as any IPv4 one, an interleaving in which it is the first frame written |
| PumpFates.PacketTurn | native/src/pump.rs:239-264 | one turn of the outbound loop with every call succeeding: the whole new state |
| PumpFates.DroppedTurn | native/src/pump.rs:247-251 | a turn on a stopped packet touches neither number nor stream |
| PumpFates.UnsealedTurn | native/src/pump.rs:271-275 | a turn whose seal fails gives the number back, but the stream end has taken the packet |
| PumpFates.UnwrittenTurn | native/src/pump.rs:265-270 | a turn whose write fails gives the number back, shuts the socket and ends the loop |
| PumpFates.FrameTurn | native/src/pump.rs:292-318 | one turn of the inbound loop on a frame that opens and unwraps: the whole new state |
| PumpFates.RefusedTurn | native/src/pump.rs:324-327 | a frame that does not open or unwrap keeps the number and the loop |
| PumpFates.UndeliveredTurn | native/src/pump.rs:319-323 | a packet the TUN refuses gives the number back, shuts the socket and ends the loop |
| Pump.CountersAtLoopHeads | native/src/pump.rs:233-331 | at each loop head the counter is the start plus what the run wrote or delivered |
| Pump.NextKeepsInv | native/src/pump.rs:194-344 | every action of every thread keeps the invariant of all runs |
| Pump.FailedCloneWedgesThePump | native/src/pump.rs:203-215 | a failed socket clone leaves running up for good and every later start refused |
| Pump.RunningAtRest | native/src/pump.rs:162-215 | once no thread can move, running is up if and only if some start failed to clone its socket |
| PumpStreams.DeliveriesAreInOrder | native/src/pump.rs:292-331 | raw or VLESS, whatever frames arrive: what reaches the TUN is a prefix of the payloads of the server's records, in order and without repeats, if the first record rejected, if any, is rejected on every replay |
| PumpReplays.InOrderExactlyIfReplaysFail | native/src/pump.rs:292-331 | given frames that carry the server's records, that holds in every interleaving if and only if replays of the first rejected record all fail |
| PumpStreams.RawIsFluent | native/src/pump.rs:307-310 | in raw mode every server stream unwraps, each record to itself |
| PumpStreams.HonestStreamIsFluent | native/src/vless.rs:397-405 | the honest server's stream unwraps: the first record to what it answered, later ones to themselves |
| PumpStreams.RejectedResponseComesBackRaw | native/src/vless.rs:397-405 | a first record rejected for its response header leaves the stream end copying |
| PumpReplays.RejectedResponseIsDangerous | native/src/vless.rs:397-405 | such a record is accepted on its first replay, so the order can break |
| PumpReplays.MismatchIsDangerous | native/src/vless.rs:604-621 | a first record refused for its identity is accepted on its first or second replay |
| PumpReplays.OversizedIsSafe | native/src/vless.rs:624-684 | a first record with an oversized frame, under an identity that reads as oversized, is rejected on every replay, so the order holds although the stream never unwraps |
| PumpReplays.UnknownCommandIsSafe | native/src/vless.rs:624-705 | for every identity a first record whose frame has a body and an unknown command leaves the reader on that frame's last byte and is rejected on every replay |
| PumpReplays.RejectedResponseIsDelivered | native/src/pump.rs:292-331 | for every record rejected for its response header an interleaving in which its frame arrives twice and the TUN gets the framed record, which has no payload |
| PumpOutbound.WrittenFramesCarryThePackets | native/src/pump.rs:247-271 | in every interleaving the first frame written reads as request header and packet if and only if the wrap that took the header was sealed, and is otherwise the bare packet; later ones read as their packets whatever seals failed |
| PumpOutbound.BareFirstRecordIsRefused | native/src/test_server.rs:238-252 | a stream without its header is refused at its first record unless that packet starts with the identity |
| PumpOutbound.EchoesReachTheTunInOrder | native/src/pump.rs:194-334 | in every interleaving whose first wrap is sealed the honest peer reads request and packets, and what is delivered is a prefix of what was sent |
| PumpHalt.NextKeepsHaltOwned | native/src/pump.rs:152-167 | while a run is busy past its start the halt slot holds its own handle or nothing |
| PumpHalt.WhoShutsASocket | native/src/pump.rs:152-167 | a socket is shut only by stop, by a half of its own run giving up, or by the closing step of a last half |
| PumpHalt.StruckExactlyByALateClosingStep | native/src/pump.rs:152-217 | after a start fills the halt slot, some continuation has another run shut its socket if and only if another run then has a closing step left; otherwise only stop and its own halves do |
| PumpHalt.ClosingStepShutsANewerRun | native/src/pump.rs:162-167 | an interleaving without stop in which a finished run's closing step shuts the socket of the next run, still in both loops |
| TunnelSession.TunnelState.Teardown | native/src/lib.rs:84-95 | the pump is stopped, and handshake, socket, counters and VLESS profile are cleared |
| TunnelSession.TunnelState.ProbeDataPlane | native/src/lib.rs:322-355 | every refusal, a failed seal included; the outbound counter moves once the frame is written, the inbound one once the echo is accepted; what success means is the next row |
| TunnelSession.ProbeSucceedsExactlyIf | native/src/lib.rs:322-355 | a probe succeeds if and only if it was written and the echo opens at the inbound number to the literal probe bytes; the outbound counter moves exactly on writing, the inbound one exactly on success |
| TunnelSession.CompletionDecides | native/src/lib.rs:283-313 | a failed completion leaves a session that refuses probes and whose next connection starts at zero; a successful one changes only the flag |
| TunnelService.HonestProbesSucceed | native/src/lib.rs:322-355 | against the honest raw server, from equal counters, every undisturbed probe succeeds and moves both counters by one |
| TunnelSession.TunnelState.PumpStart | native/src/lib.rs:373-395 | hands over both counters and the profile's stream ends if and only if the handshake is completed, a socket is there and can be cloned, the pump is not running and the clone inside start succeeds; what each case does to the pump |
| TunnelSession.SessionNumbersAreContiguous | native/src/lib.rs:268-394 | over probes and one pump run the frames written carry consecutive numbers, starting at zero if and only if the counter was zero on connecting |
| TunnelSession.NumbersAreDistinctExactlyIfNothingAfter | native/src/lib.rs:335-394 | over any probes and runs in any order and interleaving the numbers of records sealed, and those of frames written, are pairwise distinct if and only if none is used after an activity that used numbers without moving the counter |
| TunnelService.SessionNoncesDistinctExactlyIf | native/src/handshake.rs:306-367 | short of a hash collision the nonces of all records a session seals are pairwise distinct if and only if none is sealed after an activity that used numbers without moving the counter |
| TunnelService.ShieldFollowsTheCaller | native/src/lib.rs:373-395 | the caller's shield decides the fate of every packet of the run it starts; down, nothing is dropped |
| TunnelService.OpenerIsAuthentic | native/src/handshake.rs:320-334 | without forgery, what arrives and opens at a number is the server's record of that number |
| TunnelService.ProbeIsRefused | native/src/lib.rs:335-342 | the honest VLESS peer refuses the raw probe as its first record, whatever its identity |
| TunnelService.VlessSessionAccepted | native/src/test_server.rs:216-288 | from the server's first record on, a session of probes and one VLESS run is accepted if and only if no probe frame was written, and the header was not lost or the bare packets read as a request of this identity and its stream |
| VlessStream.RecordsAccepted | native/src/test_server.rs:238-283 | a new peer accepts a list of records if and only if it is empty, or the first reads as a request of its identity and the later ones unpad |
| TunnelService.VlessSessionCarried | native/src/pump.rs:194-334 | an accepted VLESS session gives the server exactly the request and the packets' bytes, and without forgery the TUN gets a prefix of the packets sent |
| TunnelService.RawSessionIsServed | native/src/test_server.rs:216-288 | with no VLESS profile found, probes and run are accepted together and mirrored, and without forgery the TUN gets a prefix of what was mirrored from the session's inbound number on |
| TunnelService.FromHelloToTun | native/src/test_server.rs:73-288 | hello, completion, probes and one VLESS pump run in any interleaving: the handshake succeeds, acceptance is exactly as above, and what is accepted is carried to the TUN |
| TunnelService.FromHelloToTunRaw | native/src/test_server.rs:73-288 | the same in raw mode, probes and run mirrored together; when the probes are undisturbed all succeed, and without forgery the TUN gets a prefix of the packets sent |
| RecordLayer.ComputeNonce | native/src/tls13.rs:216-224 | the loop folds the sequence number into the last eight IV bytes |
| RecordLayer.NoncesAreDistinct | native/src/tls13.rs:216-224 | under one key two sequence numbers never share a nonce |
| WireForms.NonceFoldsTheNumber | native/src/tls13.rs:216-224 | each bit of a nonce's last eight bytes is the IV's exclusive-or the big-endian number's; the first four bytes are the IV's |
| WireForms.NonceOfRecordZero | native/src/tls13.rs:216-224 | record zero goes out under the IV itself |
| WireForms.RecordOnTheWire | native/src/tls13.rs:682-697 | the literal bytes of a sealed record, its header as additional data |
| RecordLayer.SealedNoncesAreDistinct | native/src/tls13.rs:682-697 | the nonces of up to 2^64 records sealed one after the other are pairwise distinct |
| RecordLayer.StripInnerPadding | native/src/tls13.rs:321-331 | the loop returns the last non-zero byte and what precedes it |
| RecordLayer.StripInvertsPadding | native/src/tls13.rs:321-331 | stripping inverts padding, even for payloads ending in zeros |
| RecordLayer.AppRoundTrip | native/src/tls13.rs:682-728 | a sealed payload opens to itself if and only if it has at most 65518 bytes |
| RecordLayer.OpensExactlyIf | native/src/tls13.rs:702-728 | a record opens to some data if and only if it is whole, of type 23, and holds that data, its type and any padding sealed at this number under the header as it came |
| RecordLayer.StreamRoundTrip | native/src/tls13.rs:682-728 | a peer with the matching key opens any list of records, in order, to exactly the payloads |
| KeySchedule.HkdfExpand | native/src/tls13.rs:172-186 | the loop computes the truncated block chain; what its blocks are is the next two rows |
| KeySchedule.ExpandShort | native/src/tls13.rs:172-186 | an output of at most one hash is HMAC over the info and a one byte |
| KeySchedule.ExpandBlock | native/src/tls13.rs:172-186 | the k-th full block of the output is the HMAC of the block before it, the info and the byte k |
| TlsReference.ExpandLabelAgrees | native/src/tls13.rs:189-205 | the client's label expansion is HMAC over the literal HkdfLabel bytes of section 7.1 of RFC 8446 |
| TlsReference.ChannelAgrees | native/src/tls13.rs:285-290 | key and IV of a traffic secret are those of the standard |
| TlsReference.VerifyDataAgrees | native/src/tls13.rs:207-213 | the Finished MAC is that of section 4.4.4 of RFC 8446 |
| KeySchedule.ExpandPrefix | native/src/tls13.rs:172-186 | a shorter expansion is a prefix of a longer one |
| Der.Walker.ReadTlv | native/src/tls13.rs:805-838 | reads the value at the cursor and moves past it, or fails in bounds |
| Der.CutInvertsEncode | native/src/tls13.rs:805-838 | reading inverts definite-length encoding for every tag and content below 2^32 bytes with any suffix |
| Der.ParseCertSpki | native/src/tls13.rs:845-881 | the walk with its rewind computes the certificate's key location |
| Der.CertSpkiIsExact | native/src/tls13.rs:845-881 | the key found in a well-formed certificate, with or without a version field, is exactly its SubjectPublicKeyInfo value |
| Der.RsaSpkiIsExact | native/src/tls13.rs:883-935 | the RSA key read from a SubjectPublicKeyInfo is its modulus and exponent without sign bytes |
| Der.SpkiIsRead | native/src/tls13.rs:883-935 | from a SubjectPublicKeyInfo of any algorithm a key is read if and only if the algorithm is rsaEncryption, in literal bytes, and its bit string has no unused bits |
| Der.IndefiniteReadsAs128 | native/src/tls13.rs:813-837 | a length byte of exactly 0x80 reads as 128 bytes of content |
| ServerFlight.ParseCertEntries | native/src/tls13.rs:778-787 | the entry loop computes the certificate list |
| ServerFlight.CertEntriesInverts | native/src/tls13.rs:772-788 | the chain read from an encoded list is its certificates in order |
| ServerFlight.FlightIsStream | native/src/tls13.rs:548-622 | the record loop over any padded split with ChangeCipherSpec records computes what the carried message stream means |
| ServerFlight.SplitIndependence | native/src/tls13.rs:538-652 | every split of the same handshake bytes gives the same chain, secrets or error, and transcript |
| ServerFlight.AcceptedFlightIsVerified | native/src/tls13.rs:538-652 | an accepted flight's transcript is the old one plus the messages consumed; its Finished is the standard's MAC of the transcript before it, and its last CertificateVerify verified, with one of six literal schemes and under the last Certificate's leaf, over the literal signed content of section 4.4.3 of RFC 8446 for the transcript before it |
| ServerFlight.SignedContentAgrees | native/src/tls13.rs:596-607 | what the client has verified is 64 spaces, the literal context string, a zero byte and the hash |
| ServerFlight.SignedThrough | native/src/tls13.rs:583-613 | that transcript goes through a Certificate if and only if it came before the CertificateVerify |
| Tls13Client.ClientObject.ProcessServerHello | native/src/tls13.rs:396-455 | sets transcript, suite and early secret exactly when the hello parses and a ClientHello is stored |
| Tls13Client.ClientObject.DeriveHandshakeKeys | native/src/tls13.rs:460-492 | runs the schedule and opens both handshake channels, or fails without a suite |
| Tls13Client.ClientObject.TakeMessage | native/src/tls13.rs:516-533 | takes one whole message into the transcript and returns the hash before it, or leaves everything |
| Tls13Client.ClientObject.ScanFlight | native/src/tls13.rs:542-622 | the loop computes the flight specification and terminates |
| Tls13Client.ClientObject.ProcessServerFlight | native/src/tls13.rs:538-652 | the whole call: state after it and its result |
| Tls13Client.ClientObject.ClientFinishedRecord | native/src/tls13.rs:656-679 | the client Finished over the transcript, sealed under the handshake write key |
| Tls13Client.ClientObject.SealAppRecord | native/src/tls13.rs:682-697 | seals at the next number, or refuses without application keys |
| Tls13Client.ClientObject.OpenRecord | native/src/tls13.rs:702-718 | opens at the next number, which moves on even when opening fails |
| Tls13Client.Did | native/src/tls13.rs:368-729 | every call keeps the typestate, so no unwrap of transcript, early secret or write channel can fail |
| Tls13Client.AppKeysComeFromAVerifiedFlight | native/src/tls13.rs:643-718 | over every call sequence application channels exist only with the keys of an earlier flight that verified, both from the same flight |
| TlsHistory.RepeatingTheHelloRepeatsTheChannels | native/src/tls13.rs:396-492 | the same ServerHello and shared secret again, after any calls but a new ClientHello, restore the same handshake channels at number zero |
| TlsHistory.NumberIsTheCount | native/src/tls13.rs:656-697 | over every call sequence a write channel is the one last set up, as many records on as were sealed since the last accepted flight, or for Finished since the last key derivation |
| TlsHistory.NonceRepeatsExactlyIf | native/src/tls13.rs:656-697 | two records share key, IV and nonce if and only if their channels were set up alike and the counts since agree modulo 2^64 |
| TlsHistory.NoRepeatUnderOneSetUp | native/src/tls13.rs:656-697 | without a new set-up between them and within 2^64 records, two records never do |
| TlsHistory.ReplayingTheFlightRepeatsTheChannels | native/src/tls13.rs:396-697 | the same ServerHello, shared secret and flight again restore the same application channels at number zero, so any two payloads can go out under one key and nonce |
| TlsHistory.TranscriptIsMessages | native/src/tls13.rs:396-679 | after any calls, failing flights included, a set transcript is a stored ClientHello, the body of the ServerHello taken last, and whole messages, the client Finished included |
| HonestTls.ServerHelloRead | native/src/tls13.rs:396-454 | the client reads back suite and share of every well-formed ServerHello |
| HonestTls.ReadShareOf | native/src/tls13.rs:425-435 | a key share entry is taken exactly if it is an x25519 one of 32 bytes |
| HonestTls.CutServerHelloAborts | native/src/tls13.rs:404-408 | a ServerHello message of one to three bytes reaches the unchecked slice |
| HonestTls.OtherSuitesAreRefused | native/src/tls13.rs:396-454 | every suite but the three is refused, whatever follows it |
| HonestTls.ClientAgrees | native/src/tls13.rs:396-492 | hello, ServerHello and shared secret put the client on the server's own schedule, transcript included |
| HonestTls.LeafVerdict | native/src/tls13.rs:940-984 | under any well-formed RSA leaf the signature check decides exactly scheme, key validity and the RSA verdict on the key in the certificate |
| HonestTls.HonestFlightIsAccepted | native/src/tls13.rs:538-652 | completeness: the client accepts every honest flight in any records, made and signed with the standard's literal bytes alone, reports the server's certificates and derives the server's application channels |
| HonestTls.LateCertificateIsAccepted | native/src/tls13.rs:583-613 | a flight with its Certificate only after CertificateVerify is accepted as well, its signature independent of the certificates reported |
| HonestTls.ClientFinishedIsAccepted | native/src/tls13.rs:656-679 | the client Finished opens at the server to the message whose MAC the server expects |
| HonestTls.TlsSessionCarries | native/src/tls13.rs:368-729 | a whole session with an honest server: the five handshake calls, the Finished at the server, and application data in both directions, in order |

## Left out

- Cryptographic primitives (X25519, AES-GCM, ChaCha20-Poly1305, SHA-2, HMAC, RSA) are function values with stated laws; their computation, failure on oversized input and side channels are not modelled.
- PumpStreams.DeliveriesAreInOrder: assumes that of the frames arriving on the socket none opens at a number except to the server's record of that number; unforgeability of the AEAD itself is outside the model.
- TunnelService.VlessSessionCarried: assumes no forgery among the frames that arrive, as above.
- Pump: byte counters, `poll` timeouts and wall-clock liveness, such as how soon `stop` takes effect; sequence counters are unbounded naturals, so the 64-bit wrap is not modelled there.
- Pump: that the death of one half halts the other is not claimed; the breaks on TUN end of file and peer end of file do not shut the socket.
- TunnelSession: the JNI entry points, JSON, base64 and hex decoding, DNS and TCP connection; only the session fields and their updates are kept.
- RequestHeader: 32-bit targets, where the varint shift and the length sums behave differently, and `parse_uuid`.
- HonestPeer: the frame transport between the two parties is covered separately by `Transport.ReadInvertsWrite`; socket timeouts of the test server are not modelled.
- Handshake: key zeroization on drop and the random generation of the ephemeral secret, which is an input.
- ServerFlight: signature decoding is part of the opaque RSA verifier; ECDSA, resumption and HelloRetryRequest do not exist in the source.
- The Kotlin application (activity, service, orchestrator, profile parser, backoff), the build scripts and the server installer would only add single-step flag updates.
- Statistical claims about padding and the realism of the hello's fingerprint.

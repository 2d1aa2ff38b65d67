# A verified model of MyOnionRouter

MyOnionRouter builds circuits of relays through which a client reaches sockets on the
internet. This project models its circuit protocol, its cryptography and its tables, and
proves what they promise: that a circuit of any length is built, carries cells both ways
and is torn down by a DESTROY without error under every interleaving; that the ciphers, the key
schedule, the hash and the key agreement are what their standards define and undo each
other; that the ring buffer, the hash tables, the id generator, the end relay's sockets and
the directory's relay list behave like the plain values they stand for.

How the parts fit:

- `Bytes`, `TorCells`: blocks, 512-byte cells at the offsets of the protocol's structs.
- `AesTables`, `AesSBox`, `AesUtils`, `AesKey`, `Aes`, `Encryptions`: AES-128 (FIPS 197) and
  bulk encryption, first as functions with their laws, then as the in-place routines. `AesTail`
  follows one key and tail through AES.
- `Dh`, `Sha256`, `KeyDerivation`: key agreement (RFC 2631), hashing (FIPS 180-4).
  `Sha256Answer` follows one message through all rounds, `Sha256Constants` derives the constants.
- `Onion`, `Pipeline`, `Circuit`, `CircuitBuild`, `CircuitData`, `CircuitTheorems`: the
  client, n relays and two queues per hop as a step system over any cipher whose two
  directions cancel on blocks; invariants of construction and of traffic; the theorems.
  `CircuitRefusals` says which cells make a node fail, `CircuitWhole` follows all 512 bytes of every cell. `CircuitProgress` proves that circuits can be
  built and read out, and `CircuitHangup` adds the closing of connections. `CircuitKeys` puts in AES
  and Diffie-Hellman. `CircuitStreams` joins circuits with the end relay's streams, `Upload` follows
  data from the client to the sockets, and `Download` from the end relay to the client's user.
- `TorNet`, `ClientSession`, `ClientProgram`, `RelaySession`, `RelayEndSession`: the programs' own
  routines over mutable buffers, keys, tables and channels. Those of the two ends and of the relays
  are shown to take the step of the circuit; the client's building loop is also followed on its own,
  for answers of any origin.
- `StreamBuffers`, `Inboxes`, `ProbeTable`, `StreamIds`, `RelayEnd`, `RelayAnswers`, `RelayManager`: the data structures,
  each as a specification on values and a class with the source's fields and loops.

Assumptions: connections are reliable and deliver whole cells; sends succeed; a relay's
connection reaches the address it asked for; each operation under a mutex is one atomic step.
A routine that reads from an empty channel finds the connection closed.
What the outside world decides (answers of `connect` and `send`, bytes received, what
`realloc` finds in new memory, private exponents) is a parameter that proofs leave open.

What the code does not keep, each with its exact condition:

- Onion layers cover 509 bytes, which is 31 blocks and 13 bytes over. The code encrypts the
  13 bytes padded and stores the result cut short, so they do not come back in general:
  `AesTail.CellIsChanged` has a key and a cell. `Onion.ComesThroughExactlyWhen` says for which
  keys and cells they do, `CircuitWhole.ArrivesWholeExactlyWhen` which cells of a run arrive
  whole, and `Upload.DataArrives` and `Download.ReadIsAnswered` what that means for data.
  Bytes 0 to 498 always arrive.
- A client that leaves a circuit of two relays or more without a DESTROY leaves all sessions but
  the first waiting for as long as the relays run: one that finds its connection closed returns an
  error, and its caller then closes nothing. `CircuitHangup.AllEndExactlyWhen` has the condition,
  `CircuitHangup.LeavingStrands` a run.
- Received data is put one byte too far into its cell, so that users read it shifted:
  `RelayEnd.ReceivedIsShifted`.
- A receive buffer that grows in one of two states loses bytes:
  `StreamBuffers.PushAppendsExactlyWhen` and `Inboxes.InboxIsFifo`.

A client on a built circuit ends its session when DATA arrives for a stream it has closed
in the meantime. That is not a fault of the circuit, and it is an ordinary run;
`CircuitTheorems.ClientStopsExactlyWhen` has the condition, `CircuitProgress.StopIsReached` a run.

## Model

| member | source | states |
|---|---|---|
| `CircuitTheorems.EveryStateIsSound` | client/router/client_session.c:132-174 | In every state of every run, with any number of relays and any interleaving, the circuit is either at one stage of its construction with a known number of steps to go, or it is built and works |
| `CircuitTheorems.BuildTakesExactly` | client/router/client_session.c:149-174 | A circuit of n relays is built after exactly n(n+2) steps, never before, and until then some node always has a step to take |
| `CircuitTheorems.NothingFails` | relay/router/relay_middle.c:56-91 | As long as cells travel whole and no connection is closed, no relay of any run reaches an error return, and no client while it builds its circuit |
| `CircuitRefusals.RelayFailsExactlyWhen` | relay/router/relay_session.c:41-97 | Whatever cell arrives, a relay fails on it exactly if it is another command than CREATE before the relay has a key, or an EXTEND to a relay it does not reach as the first cell after; then it sends nothing |
| `CircuitRefusals.ExtendingFailsExactlyWhen` | relay/router/relay_middle.c:75-91 | A relay that extends the circuit fails exactly on another answer than CREATED, and then reports nothing |
| `CircuitRefusals.ClientFailsExactlyWhen` | client/router/client_session.c:132-174 | The client gives up building exactly on an answer that is not the one it waits for, CREATED or EXTENDED |
| `CircuitHangup.HangupIsOrderly` | relay/router/relay_middle.c:93-102 | When connections may close, the circuit inside still runs as before, and no relay but the first has ended over one: that after the client has left without a DESTROY, with nothing left to read from it |
| `CircuitHangup.OnlyFirstEnds` | relay/core/relay.c:65-74 | A relay past the first never reads the end of a connection, from either side, as a relay that fails over a closed connection does not close its own |
| `CircuitHangup.LeavingRuns` | relay/router/relay_middle.c:160-207 | After a client has left without a DESTROY, each read from its side takes one off what remains and nothing adds to it; until nothing remains there is such a read, and then everything sent has been taken, the first relay has ended, and the others wait |
| `CircuitHangup.LeavingTakesExactly` | relay/router/relay_middle.c:93-102 | Over any continuation relays read from the client's side as often as what remains falls by, and all is read and the first relay has ended exactly when they have read that often |
| `CircuitHangup.AllEndExactlyWhen` | relay/core/relay.c:65-74 | After a client has left and everything is read out, the first relay's session is over, and any other's exactly if the client sent a DESTROY: so all are over exactly if there is one relay or there was a DESTROY |
| `CircuitHangup.LeavingStrands` | relay/core/relay.c:65-74 | With two relays or more there is a run from the start in which the client leaves and the first relay ends, and no event is possible any more while all other sessions go on |
| `CircuitTheorems.ClientStopsExactlyWhen` | client/router/client_session.c:198-214 | A client on a built circuit ends its session on a received cell exactly when the next answer of the end relay is DATA for a stream that is not open |
| `CircuitTheorems.CloseBeforeDataStops` | client/router/client_session.c:282-296 | Whenever DATA for a stream is about to be read, closing that stream leads to the stop |
| `CircuitProgress.StopIsReached` | client/router/client_session.c:264-296 | Such runs exist on a circuit of any length: from the start, with a stream opened, DATA sent on it and the stream closed, to the stop |
| `CircuitProgress.CanBeBuilt` | client/router/client_session.c:149-174 | A circuit of any length can be built |
| `CircuitProgress.ReadersAreEnabled` | relay/router/relay_middle.c:148-158 | On a built circuit whose client is there, every queue that is not empty has a reader that can read it |
| `CircuitProgress.QuietUsesWork` | relay/router/relay_middle.c:93-115 | Steps that only read use up work, at least one unit each, so there cannot be more of them than there is work |
| `CircuitProgress.ReadOutIsComplete` | relay/router/relay_end.c:214-223 | When nothing more can be read, everything sent has been taken, all answers have been received, and every ping is back |
| `CircuitProgress.CanBeReadOut` | relay/router/relay_end.c:214-223 | From any state of a built circuit reading leads to that point, or to a cell the client stops over |
| `CircuitTheorems.OneControlCell` | client/router/client_session.c:149-174 | Until the circuit is built at most one cell is in flight anywhere |
| `CircuitTheorems.BetweenExtensions` | relay/router/relay_session.c:70-97 | Between extensions with `cur_relays` = k: relays 0 to k-2 are middle relays, relay k-1 has not decided its role, later relays are untouched, nothing is in flight, and the first k onion keys are the relays' own |
| `CircuitTheorems.BuiltKeysAgree` | client/router/client_session.c:118-130 | In a built circuit relay i holds the key at place i of the client's list, for every i |
| `CircuitTheorems.Delivery` | relay/router/relay_middle.c:93-115 | Cells the end relay has taken, then cells in flight with their remaining layers off, are the cells the client sent, on bytes 0-498; the same for cells on their way back |
| `CircuitWhole.WholeDelivery` | relay/router/relay_middle.c:93-115 | Every cell arrives in order and, in all its 512 bytes, as layers on and off leave it: what has been taken, then what will come of the cells in flight, is what comes of all cells sent; the same for cells on their way back |
| `CircuitWhole.ArrivesWholeExactlyWhen` | client/net/recv_messages.c:38-53 | A cell that has arrived at either end is the cell sent in its place, with all its bytes, exactly when a chain of blocks, one a layer, leads from what goes over the links for its last 13 bytes to those bytes |
| `CircuitWhole.StepConserves` | relay/router/relay_middle.c:93-145 | Every step of a built circuit keeps that account of whole cells in both directions |
| `CircuitWhole.PassedOutArrives` | relay/router/relay_middle.c:93-115 | What will come of a cell on its way out is the same before and after a middle relay has peeled and resealed it, in all bytes |
| `CircuitWhole.LayeredArrives` | relay/router/relay_middle.c:93-115 | A relay that puts its layer on a returning cell leaves what will come of it as it was, in all bytes |
| `CircuitTheorems.PingsEcho` | relay/router/relay_end.c:214-223 | Pings come back in order with the same command and block-aligned payload, none that was not sent, and all of them once the queues are empty |
| `CircuitTheorems.ClosedRelaysAreAPrefix` | relay/router/relay_middle.c:117-132 | Closed relays are a prefix of the path, have nothing left to read, and DESTROY is the last cell in the queue of the first open relay |
| `CircuitTheorems.TeardownDrains` | relay/router/relay_end.c:205-212 | After DESTROY every cell a relay reads from the client's side lowers the backlog by one and no other step raises it; while a relay is open one has a cell to read, and when all are closed everything sent has been taken |
| `CircuitTheorems.ClosedWhenDrained` | relay/router/relay_middle.c:117-132 | After DESTROY all relays are closed exactly when the backlog is zero |
| `CircuitTheorems.TeardownTakesExactly` | relay/router/relay_middle.c:117-132 | Over any continuation of a run after DESTROY, relays have read from the client's side as many cells as the backlog fell by, and are all closed exactly when that is the whole backlog |
| `CircuitBuild.BuildStep` | relay/router/relay_middle.c:56-91 | Each stage of the construction allows only its own next event, which leads to the next stage |
| `CircuitBuild.OnlyAwaited` | client/router/client_session.c:155-170 | At every stage the awaited event can happen and no other can |
| `CircuitBuild.RelayOutward` | relay/router/relay_middle.c:93-115 | A middle relay that peels its layer and seals the cell for the next hop leaves what is inside all layers as it was |
| `CircuitBuild.RelayInward` | relay/router/relay_middle.c:93-115 | A middle relay that adds its layer to a returning cell leaves what is inside all layers as it was |
| `CircuitBuild.ExtendArrives` | relay/router/relay_middle.c:56-74 | The last relay so far, and no other, opens the EXTEND, reads the next address and the client's key from it intact, and sends that key on in a CREATE |
| `CircuitBuild.CreateArrives` | relay/router/relay_session.c:41-68 | The new relay derives from CREATE the key the client has for it |
| `CircuitBuild.StageCountsDown` | client/router/client_session.c:149-174 | Every building step lowers the number of steps left by exactly one |
| `CircuitData.HeadWasSent` | relay/router/relay_middle.c:117-132 | In a working circuit the head of any queue is, under its layers, a cell the client sent and the end relay has not taken, and a DESTROY only at the first open relay |
| `CircuitData.WorkStep` | relay/router/relay_middle.c:93-145 | Every step of a built circuit keeps delivery both ways, echo accounting, key agreement and the order of closing |
| `CircuitData.MiddlePassesOut` | relay/router/relay_middle.c:117-132 | A middle relay's outward step moves one cell a hop on without reordering, and closes exactly on DESTROY |
| `CircuitData.EndTakes` | relay/router/relay_end.c:205-256 | The end relay takes exactly the next cell the client sent and answers a ping in the same step |
| `CircuitData.BuiltWorks` | client/router/client_session.c:149-174 | The state in which construction ends satisfies the invariant of a working circuit |
| `CircuitKeys.PathSetupIsValid` | client/router/client_session.c:118-130 | With Diffie-Hellman keys and AES, the client's key list is what each relay derives from the client's public key, whatever the private exponents |
| `CircuitKeys.RelaysHoldClientKeys` | relay/router/relay_session.c:56-59 | Over the concrete cryptography every relay of a built circuit ends up with the AES key the client derived from its directory entry, that of g^(xy) mod p |
| `Pipeline.MoveUp` | relay/router/relay_middle.c:93-115 | Moving a head cell to the end of the next queue leaves the overall order of a direction as it was |
| `Pipeline.MoveDown` | relay/router/relay_middle.c:93-115 | The same in the other direction |
| `Pipeline.HeadPosition` | relay/router/relay_middle.c:117-132 | The head of queue i is in the overall order, with the rest of its queue and all earlier queues after it |
| `Onion.UnsealSeal` | client/net/send_messages.c:29-40 | A link layer over all 512 bytes comes off without loss |
| `Onion.OnionRoundTrip` | client/net/recv_messages.c:38-53 | Any number of onion layers comes off any cell with the header and 31 whole payload blocks restored |
| `Onion.PeelOnionView` | client/net/recv_messages.c:38-53 | What peeling leaves in bytes 0-498 depends on nothing beyond them |
| `TorCells.ExtendCellReads` | client/net/send_tor_messages.c:18-28 | An EXTEND reads back as one, with the address and public key it was made of, whatever the buffer held |
| `TorCells.ExtendSurvivesInView` | library/include/protocol/tor_structs.h:99-114 | No field of an EXTEND lies in the 13 bytes that layers do not preserve |
| `TorCells.CreateFromExtendReads` | relay/net/relay_send_messages.c:40-47 | The CREATE made in place from an EXTEND carries the client's key across the overlapping move |
| `TorCells.CreatedCellReads` | relay/router/relay_session.c:61-63 | CREATED has its command and a key of zeros |
| `TorCells.ExtendedCellReads` | relay/net/relay_send_messages.c:49-56 | EXTENDED is a relay cell with its command, and all other bytes are those of the CREATED it was made of |
| `TorCells.DataCellLayout` | library/include/protocol/tor_structs.h:85-96 | DATA byte by byte: id at 3 and length at 11, low byte first, commands at 2 and 13, data from 14, all else as the buffer held it |
| `TorCells.CreateCellLayout` | library/include/protocol/tor_structs.h:57-62 | CREATE byte by byte: command at 2, key at 3 to 258 |
| `TorCells.ExtendCellLayout` | library/include/protocol/tor_structs.h:99-114 | EXTEND byte by byte: commands at 2 and 13, address at 14 to 33, key at 34 to 289 |
| `TorCells.DataCellReads` | client/net/send_tor_messages.c:42-53 | A DATA cell reads back with its stream id cut to 16 bits, its length and its bytes |
| `TorCells.BeginCellReads` | client/net/send_tor_messages.c:30-40 | A BEGIN cell reads back with its stream id and address |
| `TorCells.ClaimedInRange` | client/router/client_session.c:198-214 | A reader that trusts the length field takes exactly the cell's data when the field is in range |
| `TorCells.MakeBegin` | client/net/send_tor_messages.c:30-40 | In place, the buffer becomes exactly the BEGIN cell over its old contents, with the id cut to 16 bits |
| `TorCells.MakeEnd` | client/net/send_tor_messages.c:55-64 | In place, the buffer becomes exactly the END cell over its old contents |
| `TorCells.MakeExtend` | client/net/send_tor_messages.c:18-28 | In place, the buffer becomes exactly the EXTEND cell over its old contents |
| `TorCells.MakeData` | client/net/send_tor_messages.c:42-53 | In place, the buffer becomes exactly the DATA cell over its old contents |
| `TorCells.MakeCreateFromExtend` | relay/net/relay_send_messages.c:40-47 | In place, the EXTEND in the buffer becomes the CREATE for the next hop |
| `TorCells.MakeCreated` | relay/router/relay_session.c:61-63 | In place, the CREATE in the buffer becomes CREATED with its key field cleared |
| `TorCells.MakeExtended` | relay/net/relay_send_messages.c:49-56 | In place, the CREATED in the buffer becomes EXTENDED, with all other bytes kept |
| `TorNet.AddOnionLayers` | client/net/send_messages.c:20-35 | The descending loop adds the first n keys' layers, the last key's innermost, and leaves the 3 header bytes |
| `TorNet.PeelOnionLayers` | client/net/recv_messages.c:38-53 | The ascending loop takes the first n keys' layers off, the first key's outermost |
| `TorNet.ClientSendTorBuffer` | client/net/send_messages.c:18-52 | Exactly one cell is appended to the connection: the buffer under the onion layers, then under the link key |
| `TorNet.ClientRecvTorBuffer` | client/net/recv_messages.c:20-61 | The oldest cell is read and both kinds of layer come off; it fails exactly on an empty, closed connection |
| `TorNet.RelaySendTorBuffer` | relay/net/send_messages.c:19-56 | A relay adds its layer only towards the client |
| `TorNet.RelayRecvTorBuffer` | relay/net/recv_messages.c:22-59 | A relay takes its layer off only what came from the client |
| `RelaySession.RelaySession.HandleCreateMessage` | relay/router/relay_session.c:41-68 | Over real keys and buffers: does the relay's step of the circuit on CREATE; it succeeds exactly if a cell is there and its command is CREATE, and otherwise sends nothing |
| `RelaySession.RelaySession.ExtendRelaySend` | relay/router/relay_middle.c:56-74 | Up to its blocking read: connects to the named relay and sends it the CREATE, as the circuit's step does; it fails exactly if another relay is named, and then sends nothing |
| `RelaySession.RelaySession.ExtendRelayFinish` | relay/router/relay_middle.c:75-91 | After the read: EXTENDED goes back under the relay's layer exactly if a cell is there and its command is CREATED |
| `RelaySession.RelaySession.ReceiveRole` | relay/router/relay_session.c:82-96 | The relay becomes a middle relay exactly when the first peeled cell is an EXTEND, and an end relay otherwise |
| `RelaySession.RelaySession.HandleFdCommon` | relay/router/relay_middle.c:93-115 | One cell moves from one side to the other: peeled by one layer outward, under one more layer inward, link keys exchanged |
| `RelaySession.RelaySession.HandleLastFd` | relay/router/relay_middle.c:117-132 | Does the circuit's outward step of a middle relay, and ends the session exactly on DESTROY after passing it on |
| `RelaySession.RelaySession.HandleNextFd` | relay/router/relay_middle.c:134-145 | Does the circuit's inward step of a middle relay |
| `ClientSession.ClientSession.constructor` | client/router/client_session.c:118-130 | One onion key per listed relay, in order, each derived from that relay's public key |
| `ClientSession.ClientSession.SendCreate` | client/net/send_tor_messages.c:9-16 | The client sends CREATE with its public key under the link key alone, which is the circuit's first step |
| `ClientSession.ClientSession.SendExtend` | client/net/send_tor_messages.c:18-28 | EXTEND to the next relay of the list goes out under the layers so far, which is the client's step of the circuit |
| `ClientSession.ClientSession.ReceiveExtended` | client/router/client_session.c:158-170 | The answer is read and counted as the client's step of the circuit, failure included |
| `ClientSession.ClientSession.SendCell` | client/net/send_tor_messages.c:30-79 | A cell of the built circuit goes out as the client's step of the circuit |
| `ClientSession.ClientSession.ReceiveCell` | client/router/client_session.c:418-425 | A cell of the built circuit comes in with all layers off, as the client's step of the circuit |
| `ClientSession.ClientSession.ReceiveCreated` | client/router/client_session.c:139-147 | One relay counts as reached exactly when the answer is CREATED, as in the circuit's step; on a closed connection the stale buffer is tested, as the source does |
| `ClientSession.ClientSession.CreateRelayCircuit` | client/router/client_session.c:149-174 | Whatever answers are read: one EXTEND to each next relay under the layers so far, stopping with all relays reached or at the first answer missing or refused |
| `ClientSession.ClientSession.SendInput` | client/router/client_session.c:313-330 | The DATA cells sent carry the input completely and in order, in the least number of cells of 498 bytes, each a step the circuit allows |
| `ClientProgram.Client.HandleInputPlain` | client/router/client_session.c:239-262 | Ping and destroy are the client's steps of the circuit |
| `ClientProgram.Client.HandleInputConnect` | client/router/client_session.c:264-280 | A new stream whose id was not open, with a new receive buffer, and a BEGIN with that id, as one step of the circuit and its set of streams |
| `ClientProgram.Client.HandleInputClose` | client/router/client_session.c:282-296 | END for any id, and the stream closed with its buffer if it is open, as one step of the circuit |
| `ClientProgram.Client.HandleInputSend` | client/router/client_session.c:298-335 | For an open stream the whole input goes out as steps the circuit allows; for any other id nothing happens |
| `ClientProgram.Client.HandleInputRecv` | client/router/client_session.c:337-375 | For an open stream the oldest bytes of its receive buffer are read out, as many as asked for or there are; the session and other streams' buffers stay, and for any other id nothing happens |
| `ClientProgram.Client.HandleRelayEvent` | client/router/client_session.c:416-431 | A cell is read and acted on as the circuit's step, and the receive buffers change as that cell says; the session goes on unless the connection is closed or the cell is DATA for a stream that is not open |
| `Upload.DataArrives` | relay/router/relay_end.c:127-161 | A DATA cell that has arrived, at either end, has the stream id, the length and the first 485 data bytes of the one sent in that place, and all its data exactly when that is no longer or its last bytes are read back from what goes over the links |
| `Upload.InputArrivesExactlyWhen` | client/router/client_session.c:313-330 | An input of at most 498 bytes arrives at the end relay in one cell of its length and stream, unchanged exactly when it is no longer than 485 bytes or its last bytes are read back; over any circuit and any interleaving |
| `Upload.WrittenWasSent` | relay/router/relay_end.c:127-161 | In every joint run of circuit and streams, what is written to sockets is, in order, DATA the client sent: same stream, same length, same first 485 bytes, and all of it exactly when it returns |
| `Upload.InputIsWritten` | relay/router/relay_end.c:127-161 | When the end relay takes the cell of an input of at most 498 bytes it writes as many bytes to the open socket its stream was opened on last, and they are the input exactly when it returns; it answers ABSENT if the stream has none, and END for an empty input |
| `Download.UserIsRun` | client/router/client_session.c:416-444 | The circuit in a run with a user who opens, closes and reads out streams runs as it does alone |
| `Download.EveryStateFollows` | client/router/client_session.c:176-217 | In every run the streams with a receive buffer are the circuit's, and what has come for each since it was opened is the data of the cells received for it since |
| `Download.SameDataFor` | client/router/client_session.c:198-214 | The data of a stream in cells that have arrived is that of the cells sent exactly when each cell's comes through the layers, so no loss makes up for another |
| `Download.ReadIsAnswered` | client/router/client_session.c:337-375 | What a user has read out of an open stream, then what its buffer holds, is the data in the end relay's answers for it since it was opened, as far as they have arrived, exactly when all that data comes through the layers; provided that every push since was safe |
| `CircuitStreams.JointIsRun` | relay/router/relay_end.c:344-373 | Every state of the circuit together with the end relay's streams is reached by a run of the circuit alone, and its streams are sound |
| `CircuitStreams.WritesWereTaken` | relay/router/relay_end.c:127-161 | Cells written to sockets are DATA cells the end relay took, in the order it took them |
| `CircuitStreams.RepliesAreSteps` | relay/net/relay_send_messages.c:5-38 | Every answer of the stream handlers is a step the circuit allows its end relay |
| `CircuitStreams.SocketIsForwarded` | relay/router/relay_end.c:258-320 | In every joint run of circuit and streams an event of a stream's socket has the end relay answer with exactly one cell: its bytes as DATA for its stream, or END when there are no more |
| `AesTables.TablesInverse` | encryptions/aes/aes_utils.c:6-44 | Each table inverts the other on all 256 bytes |
| `AesSBox.SBoxIsDefined` | encryptions/aes/aes_utils.c:6-24 | Every entry of the table is the affine image of its index's inverse in GF(2^8), FIPS 197 section 5.1.1 |
| `AesUtils.ProductLinear` | encryptions/aes/aes_utils.c:160-177 | Multiplication by a fixed factor is linear over GF(2^8) |
| `AesUtils.ProductAssociates` | encryptions/aes/aes_utils.c:160-177 | Multiplication in GF(2^8) is associative |
| `AesUtils.Mul` | encryptions/aes/aes_utils.c:160-177 | The bit-by-bit loop computes the field product |
| `AesUtils.ShiftRowsMovesRows` | encryptions/aes/aes_utils.c:75-126 | Row r moves r columns, in opposite directions for the two transformations |
| `AesUtils.MixColumnCancels` | encryptions/aes/aes_utils.c:140-195 | The two column matrices are inverse over GF(2^8), for every column |
| `AesUtils.MixColumnsCancels` | encryptions/aes/aes_utils.c:140-195 | So are the two block transformations |
| `AesUtils.XorBlock128` | encryptions/aes/aes_utils.c:51-57 | In place, the block becomes its sum with the operand |
| `AesUtils.SubBytesBlock128` | encryptions/aes/aes_utils.c:59-65 | In place, every byte is replaced through the table |
| `AesUtils.InvSubBytesBlock128` | encryptions/aes/aes_utils.c:67-73 | In place, every byte is replaced through the inverse table |
| `AesUtils.ShiftRowsBlock128` | encryptions/aes/aes_utils.c:75-100 | The in-place moves compute the row shift |
| `AesUtils.InvShiftRowsBlock128` | encryptions/aes/aes_utils.c:101-126 | The in-place moves compute the inverse row shift |
| `AesUtils.MixColumnsBlock128` | encryptions/aes/aes_utils.c:140-158 | The in-place column loop computes the matrix product of all four columns |
| `AesUtils.InvMixColumnsBlock128` | encryptions/aes/aes_utils.c:179-195 | The in-place column loop with bitwise multiplication computes the inverse matrix product |
| `AesKey.AesGenerateKeys128` | encryptions/aes/aes_key.c:22-44 | The little-endian word loop leaves the key of every round, 0 to 10, in its place |
| `AesKey.ExpandIsKeyExpansion` | encryptions/aes/aes_key.c:9-44 | Those keys are the byte columns of FIPS 197 section 5.2 |
| `AesKey.RoundKeyRoundTrip` | encryptions/aes/aes_key.c:22-44 | Each round of the schedule can be undone |
| `AesKey.ExpandInjective` | encryptions/aes/aes_key.c:22-44 | Two keys that agree on the key of any one round are equal |
| `AesKey.KeyBlocksInjective` | encryptions/aes/aes_key.c:22-44 | The same for the 16 bytes that are added to the state |
| `Aes.DecryptUndoesEncrypt` | encryptions/aes/aes.c:3-66 | Decryption undoes encryption for every key and block |
| `Aes.EncryptUndoesDecrypt` | encryptions/aes/aes.c:3-66 | Encryption undoes decryption for every key and block |
| `Aes.DecryptRoundsUndo` | encryptions/aes/aes.c:35-66 | The descending rounds undo the ascending ones, for any number of rounds |
| `Aes.AesEncrypt128` | encryptions/aes/aes.c:3-33 | The in-place round loop computes the cipher of FIPS 197 section 5.1 |
| `Aes.AesDecrypt128` | encryptions/aes/aes.c:35-66 | The in-place descending loop computes the inverse cipher of FIPS 197 section 5.3 |
| `Encryptions.AesIsLawful` | encryptions/aes/aes.c:3-66 | AES meets the two laws that all circuit proofs assume of a cipher |
| `Encryptions.BufferRoundTrip` | encryptions/source/encryptions.c:119-191 | A buffer of any length gets its whole blocks back, and all of itself when 16 divides its length |
| `Encryptions.TailRoundTrip` | encryptions/source/encryptions.c:137-152 | The sixteen bytes that a shorter last block decrypts to are its padded plaintext exactly when the ciphertext bytes cut off were all zero |
| `Encryptions.TailReturnsExactlyWhen` | encryptions/source/encryptions.c:174-190 | The bytes the code keeps of a shorter last block come back exactly when some block that starts with them encrypts to their ciphertext, cut short and padded |
| `Encryptions.ZeroCutReturns` | encryptions/source/encryptions.c:137-152 | They do come back if the ciphertext bytes cut off are all zero, which a sender can check |
| `Encryptions.BufferReturnsExactlyWhen` | encryptions/source/encryptions.c:119-191 | A buffer of any length comes back exactly when 16 divides its length or the bytes after its whole blocks return |
| `Encryptions.LayersReturnExactlyWhen` | client/net/recv_messages.c:38-53 | Any number of layers gives a buffer with a partial last block back exactly when a chain of blocks, one a layer, leads from what is sent for that part to its bytes |
| `Onion.CellReturnsExactlyWhen` | client/net/recv_messages.c:38-53 | One onion layer gives all 512 bytes of a cell back exactly when its 13 last bytes return |
| `Onion.LayeredCellReturnsExactlyWhen` | client/net/recv_messages.c:38-53 | The same for any number of onion layers |
| `Onion.ComesThrough` | client/net/recv_messages.c:38-53 | Layers on and off give back bytes 0-498, and do to the 13 bytes after them what they would do to these alone |
| `Onion.ComesThroughExactlyWhen` | client/net/recv_messages.c:38-53 | Bytes 0-498 and any number of the bytes after them come back exactly when there is such a chain of blocks for those bytes |
| `Encryptions.TailDecides` | encryptions/source/encryptions.c:137-152 | A buffer comes back exactly when what is left over after its whole blocks does |
| `Encryptions.EachBlockAlone` | encryptions/source/encryptions.c:119-153 | Each block of a buffer goes through the cipher alone and once, wherever it lies, and the bytes after the last whole block with zeros after them |
| `Encryptions.BlocksGoThroughCipher` | encryptions/source/encryptions.c:119-191 | So every whole block of an encrypted or decrypted buffer is the block at its place, encrypted or decrypted with the key |
| `AesTail.Encrypted` | encryptions/aes/aes.c:3-33 | Under a key of zeros, what two concrete blocks encrypt to, through all ten rounds |
| `AesTail.TailIsLost` | encryptions/source/encryptions.c:137-152 | With AES itself, 13 zeros under a key of zeros are read back as other bytes |
| `AesTail.CellIsChanged` | client/net/recv_messages.c:38-53 | So a cell of zeros does not survive an onion layer under that key |
| `Encryptions.LayersRoundTrip` | client/net/send_messages.c:20-35 | For any keys and any length, layers added last key first and taken off first key first give the whole blocks back |
| `Encryptions.LayersWhole` | client/net/recv_messages.c:38-53 | What layers do to whole blocks does not depend on the bytes after them |
| `Encryptions.PeelLayersSplit` | relay/net/recv_messages.c:40-51 | Peeling a list of keys is peeling its first part, then its second, so relays can do it one by one |
| `Encryptions.AddLayersSplit` | relay/net/send_messages.c:19-56 | Adding a list of layers is adding its second part, then its first, so relays can do it one by one |
| `Encryptions.SymmetricEncrypt` | encryptions/source/encryptions.c:119-153 | The in-place loop encrypts exactly the `length` bytes it is given, pads and cuts a partial last block, and touches nothing else |
| `Encryptions.SymmetricDecrypt` | encryptions/source/encryptions.c:156-191 | The same for decryption |
| `Dh.PowersCommute` | encryptions/dh/dh.c:175-182 | (g^x)^y and (g^y)^x modulo p are both g^(xy) mod p, for all exponents |
| `Dh.ImportExport` | encryptions/dh/dh.c:36-57 | Importing an export gives the value back, zero and short values included |
| `Dh.ExportImport` | encryptions/dh/dh.c:36-57 | Every byte string is the export of the number it imports to |
| `Dh.ImportDigits` | encryptions/dh/dh.c:36-57 | Byte k of what is imported is digit k of the number in base 256, the lowest first |
| `Dh.ExportMpzFixed` | encryptions/dh/dh.c:36-57 | The digits and then zeros fill exactly `size` bytes, least significant first |
| `Dh.DhGlobals.SetPrimeDh` | encryptions/dh/dh.c:104-107 | Any 256 bytes are taken over as the modulus, which is one in range exactly when not all of them are zero |
| `Dh.DhGlobals.GetPrimeDh` | encryptions/dh/dh.c:93-96 | The bytes handed out import to the modulus itself |
| `Dh.KeyAgreement` | encryptions/dh/dh.c:155-187 | Each side, importing what the other exported, arrives at the export of g^(xy) mod p, RFC 2631 section 2.1.1 |
| `Dh.DhIdentityKey.constructor` | encryptions/dh/dh.c:155-162 | The public value of an identity key is the power of its private exponent |
| `Dh.DhIdentityKey.GetDhPublicIdentityKey` | encryptions/dh/dh.c:164-167 | The 256 bytes handed out import to g^x mod p |
| `Dh.DhSessionKey.SetDhKeyOtherPublic` | encryptions/dh/dh.c:175-182 | The common value is b^x mod p for the imported key b and one's own exponent x |
| `Dh.DhSessionKey.GetDhCommonKey` | encryptions/dh/dh.c:184-187 | The 256 bytes handed out import to the common value |
| `Sha256.PadIsLeast` | encryptions/sha/sha256.c:16-21 | The padded length is the least multiple of 64 that fits, and a multiple of 64 grows by exactly 64 |
| `Sha256.PadIsPadded` | encryptions/sha/sha256.c:16-42 | Byte by byte the padded message is the message, 0x80, zeros, and the length in bits modulo 2^64 in the last 8 bytes, highest first |
| `Sha256.PadInjective` | encryptions/sha/sha256.c:16-42 | Different messages whose bit length fits 64 bits have different paddings, FIPS 180-4 section 5.1.1 |
| `Sha256.HashPrepareDataSha256` | encryptions/sha/sha256.c:16-42 | The buffer becomes the padded message in place; 0 is returned and nothing changed exactly when it would not fit |
| `Sha256.PrepareSchedule` | encryptions/sha/sha256.c:79-143 | The word array holds the message schedule of FIPS 180-4 section 6.2.2 |
| `Sha256.RunRounds` | encryptions/sha/sha256.c:79-143 | The loop over eight accumulators computes the 64 rounds |
| `Sha256.HashSha256` | encryptions/sha/sha256.c:79-143 | The block loop writes the fold of the section 6.2.2 compression over all blocks |
| `Sha256.OneMoreBlock` | encryptions/sha/sha256.c:96-143 | The hash value after one more block is the compression of the value before it with that block |
| `Sha256Answer.HashOfAbc` | encryptions/sha/sha256.c:44-143 | The hash of "abc" is the 32 bytes of the standard's example, followed through the schedule and all 64 rounds |
| `Sha256Constants.PrimesInOrder` | encryptions/sha/sha256.c:4-13 | The table of primes that the constants are compared with has the first 64 primes, in order and without a gap |
| `Sha256Constants.RoundConstantsAreRoots` | encryptions/sha/sha256.c:4-13 | Round constant t is the first 32 bits after the point of the cube root of the t-th prime, FIPS 180-4 section 4.2.2 |
| `Sha256Constants.InitialIsRoots` | encryptions/sha/sha256.c:84-91 | The eight initial words are those of the square roots of the first 8 primes, section 5.3.3 |
| `KeyDerivation.SharedSymmetricKey` | encryptions/source/encryptions.c:89-116 | Both sides derive the same AES key from each other's exported public key: the first 16 bytes of the hash of the 256 bytes that g^(xy) mod p is imported from |
| `KeyDerivation.KeyData.DeriveSymmetricKeyFromPublic` | encryptions/source/encryptions.c:89-116 | The key becomes the first 16 bytes of the hash of the 256 bytes that b^x mod p is imported from, for the imported key b and the own exponent x; its abort is never taken |
| `StreamBuffers.MaskIsRemainder` | client/services/stream_buffers.c:107 | Masking with capacity - 1 is the remainder, as capacities are powers of two |
| `StreamBuffers.GrowthIsSafeExactlyWhen` | client/services/stream_buffers.c:29-48 | After growth the bytes held and any next byte are read as they should be, exactly when the buffer was neither full with head and tail meeting nor drained with the head at the end |
| `StreamBuffers.PushAppendsExactlyWhen` | client/services/stream_buffers.c:55-80 | Every push of n bytes leaves the bytes held and then its own to be read, exactly when it need not grow in one of those two states |
| `StreamBuffers.PushHoldsExactlyWhen` | client/services/stream_buffers.c:55-80 | For each single push, the indices agree with the bytes exactly then |
| `StreamBuffers.PopTakes` | client/services/stream_buffers.c:82-111 | A pop returns the oldest bytes, as many as asked or there are, and keeps the rest |
| `StreamBuffers.RunIsFifo` | client/services/stream_buffers.c:29-111 | Over any run with no such growth, bytes popped and then bytes held are the bytes pushed |
| `StreamBuffers.RunHoldsExactlyWhen` | client/services/stream_buffers.c:29-111 | At the end of any run the indices agree with the bytes held exactly when they did at its start and it had no such growth |
| `StreamBuffers.StrayStays` | client/services/stream_buffers.c:29-111 | Once they disagree, no push and no pop makes them agree again |
| `Inboxes.InboxIsFifo` | client/router/client_session.c:176-217 | In every history of streams opened, closed, filled and read out, an open stream's buffer is in order exactly when all pushes since it was opened were safe; then bytes read out, then bytes held, are the data received for it since, whatever happened to other streams |
| `Inboxes.ReadTakes` | client/router/client_session.c:349-368 | Reading out 16 bytes at a time gives the oldest bytes, as many as asked for or there are, and leaves the rest |
| `StreamBuffers.FullInTheMiddleLoses` | client/services/stream_buffers.c:41-47 | In the first state a growing push puts its first byte in front of all those held |
| `StreamBuffers.FullInTheMiddleIsReached` | client/services/stream_buffers.c:55-111 | Three operations on a new buffer reach the first state |
| `StreamBuffers.FullInTheMiddleRun` | client/services/stream_buffers.c:55-111 | One more push, and bytes popped then bytes held are no longer the bytes pushed |
| `StreamBuffers.DrainedAtTheEndLoses` | client/services/stream_buffers.c:62-79 | In the second state a growing push leaves the reader at an old byte, or at a later one of the pushed bytes if they go around the end |
| `StreamBuffers.DrainedAtTheEndIsReached` | client/services/stream_buffers.c:55-111 | Two operations on a new buffer reach the second state |
| `StreamBuffers.DrainedAtTheEndRun` | client/services/stream_buffers.c:55-111 | A push of 65 bytes then, and bytes popped then bytes held are no longer the bytes pushed |
| `StreamBuffers.CircularBuffer.constructor` | client/services/stream_buffers.c:10-22 | A new buffer holds nothing |
| `StreamBuffers.CircularBuffer.GrowBuffer` | client/services/stream_buffers.c:29-48 | The memory doubles and the wrapped part moves to the new end |
| `StreamBuffers.CircularBuffer.StreamPushData` | client/services/stream_buffers.c:55-80 | The bytes are appended exactly when the two states are not grown |
| `StreamBuffers.CircularBuffer.StreamPopData` | client/services/stream_buffers.c:82-111 | The oldest bytes are copied out, and the rest of the output is left alone |
| `ProbeTable.InsertFailsWhen` | relay/services/socket_hashmap.c:35-62 | An insert fails exactly when the table is full or an entry of the id comes before any free slot |
| `ProbeTable.InsertPushes` | relay/services/socket_hashmap.c:35-62 | An insert that succeeds pushes on the id's stack and touches no other id |
| `ProbeTable.FindSeesTop` | relay/services/socket_hashmap.c:64-86 | A find sees the top of the id's stack, and fails exactly when it is empty |
| `ProbeTable.RemovePops` | relay/services/socket_hashmap.c:88-111 | A remove pops the id's stack and touches no other id |
| `ProbeTable.FreshInsert` | relay/services/socket_hashmap.c:35-62 | For ids not in use the table is a plain map: an insert fails only when it is full |
| `ProbeTable.RunKeepsStacks` | relay/services/socket_hashmap.c:35-111 | On every run from the empty table, with no condition on callers, each id has exactly the stack its history calls for |
| `ProbeTable.TombstoneHidesDuplicate` | relay/services/socket_hashmap.c:35-62 | Three operations after which a live id can be inserted again |
| `ProbeTable.HashMap.constructor` | relay/services/socket_hashmap.c:5-11 | All slots start empty |
| `ProbeTable.HashMap.Insert` | relay/services/socket_hashmap.c:35-62 | The wrapping probe loop writes the first free slot, unless the id is met before it |
| `ProbeTable.HashMap.Find` | relay/services/socket_hashmap.c:64-86 | The wrapping probe loop finds the first entry of the id before an unused slot |
| `ProbeTable.HashMap.Remove` | relay/services/socket_hashmap.c:88-111 | That entry, and nothing else, becomes a tombstone |
| `StreamIds.FreeHomeIsFresh` | client/services/stream_hashmap.c:104-114 | With every stream in its home slot, a free home slot makes an id globally fresh even cut to 16 bits, and the insert takes that slot |
| `StreamIds.FullTableNeverEnds` | client/services/stream_hashmap.c:104-114 | The generator's loop has no value to stop at exactly when all 2048 slots are filled |
| `StreamIds.WrapKeepsSlots` | client/services/stream_hashmap.c:108-111 | Wrapping the 32-bit counter skips no slot |
| `StreamIds.ClientStreams.GenStreamId` | client/services/stream_hashmap.c:104-114 | When a slot is free, the first counter value with a free home slot is found within 2048 turns |
| `StreamIds.ClientStreams.Connect` | client/router/client_session.c:264-270 | The new id was not in use, its stream is open with nothing received, and other streams and their buffers stay: as a map from ids to buffers, one new entry |
| `StreamIds.FoundAtHome` | client/services/stream_hashmap.c:54-76 | With every stream at home a search finds its stream in the home slot or not at all |
| `StreamIds.ClientStreams.InsertStream` | client/services/stream_hashmap.c:25-52 | A free home slot takes the stream with an empty receive buffer of its own; other streams and their buffers stay |
| `StreamIds.ClientStreams.HandleRelayRelayMsg` | client/router/client_session.c:176-217 | DATA goes into the buffer of exactly its own stream, END closes exactly its own, and only DATA for a stream that is not open is an error |
| `StreamIds.ClientStreams.HandleRelayData` | client/router/client_session.c:198-214 | The bytes are pushed into the named stream's buffer and no other changes |
| `StreamIds.ClientStreams.ReadOut` | client/router/client_session.c:349-368 | The loop on a buffer reads out what the function of reading out gives, whatever state the buffer is in |
| `StreamIds.ClientStreams.HandleInputRecv` | client/router/client_session.c:337-375 | The stream named is looked up; its oldest bytes are read out, nothing happens for an id that is not open, and all other receive buffers stay |
| `StreamIds.ClientStreams.Close` | client/router/client_session.c:282-296 | Whatever id is named, only its stream closes; all others stay, each at home and with its buffer: as a map, at most one entry less |
| `RelayManager.LiveAndFree` | server/services/relay_manager.c:96-183 | Live relays plus free ids are as many as ids handed out |
| `RelayManager.GenKeeps` | server/services/relay_manager.c:96-148 | A generated id was not live, the free stack stays exact and without repeats, and growth keeps all entries |
| `RelayManager.RemoveKeeps` | server/services/relay_manager.c:150-183 | A remove succeeds exactly on live ids and frees that id alone |
| `RelayManager.RemovedLastIsFirst` | server/services/relay_manager.c:129-183 | After a remove the next relay gets the id just removed, and the free stack is as it was |
| `RelayManager.NeverRemovedIsNext` | server/services/relay_manager.c:96-128 | With no removed id left the next relay gets the number of live relays as its id |
| `RelayManager.RunKeepsOrder` | server/services/relay_manager.c:96-183 | In every run the live ids and the stack of removed ids, in its order, are what the history of operations calls for, and so is the id of the next relay |
| `RelayManager.NextIsPeak` | server/services/relay_manager.c:96-183 | In every interleaving, `max_item_index` is the largest number of relays that were ever live at once |
| `RelayManager.RunKeepsRoom` | server/services/relay_manager.c:96-148 | In every run the table is as long as the least power of two, from 2 on, that holds the peak number of live relays |
| `RelayManager.CycleIsLive` | server/services/relay_manager.c:185-210 | Going around once from any cursor meets every live id exactly once |
| `RelayManager.BatchIsCyclic` | server/services/relay_manager.c:185-210 | A batch is the first min(max, live) live ids in cyclic order from the cursor, each once |
| `RelayManager.BatchesCompose` | server/services/relay_manager.c:185-210 | Up to the live count, a batch of a and then one of b from the returned cursor are one batch of a + b |
| `RelayManager.RelayTable.constructor` | server/services/relay_manager.c:25-51 | Two slots, no live relay, no free id |
| `RelayManager.RelayTable.GenRelay` | server/services/relay_manager.c:96-148 | The arrays change to the state of the specification, exactly the returned id becomes live, and it is the last of the removed ids, or the next new one if there are none |
| `RelayManager.RelayTable.RemoveRelay` | server/services/relay_manager.c:150-183 | The same for a remove, which puts the id on top of the stack, the stack doubling when it is full |
| `RelayManager.RelayTable.GetRelay` | server/services/relay_manager.c:80-94 | A relay is returned exactly for live ids, and carries its id |
| `RelayManager.RelayTable.GetRelayBatch` | server/services/relay_manager.c:185-210 | The loop copies the descriptors of exactly the batch and leaves its cursor |
| `RelayAnswers.BeginIsAnswered` | relay/router/relay_end.c:77-125 | A BEGIN is answered for its id with CONNECTED exactly when the connect succeeded and the table is neither full nor blocked for the id, and with END and the reason for a failed start otherwise; a connected socket is on the id's stack and watched only in the first case |
| `RelayAnswers.EndIsAnswered` | relay/router/relay_end.c:163-203 | An END closes and unwatches the id's last socket, and only that, and is confirmed; it is refused as absent exactly when the id has none |
| `RelayAnswers.DataIsAnswered` | relay/router/relay_end.c:127-161 | DATA goes to the id's last socket, which is open, unanswered; it is refused as absent when the id has none, and as ended when the socket does not accept it or there is no data |
| `RelayAnswers.OthersLeaveStreams` | relay/router/relay_end.c:205-256 | Every other cell leaves the streams alone: a ping is answered with itself, a DESTROY ends the session, the rest is ignored |
| `RelayAnswers.SocketIsAnswered` | relay/router/relay_end.c:258-287 | Bytes of a socket go to the client in a DATA cell for the id that it is watched under, with their number and shifted by one, and the streams stay; at the end of the stream the id's last socket is closed, unwatched and gone from its stack, and END with reason EOF is sent |
| `RelayEnd.EventFindsEntry` | relay/router/relay_end.c:309-320 | An event of a watched socket always finds an entry for its id: the one put in last |
| `RelayEnd.StepIsSound` | relay/router/relay_end.c:205-321 | Every step keeps watched sockets equal to the sockets in the table, all open and distinct, each watched under its entry's id |
| `RelayEnd.RunIsSound` | relay/router/relay_end.c:344-373 | So does every run, however the client uses ids and whatever its cells say |
| `RelayEnd.EachIsClosedOnce` | relay/router/relay_end.c:344-373 | When a run ends, every socket was closed exactly as often as it was put in the table, and none of the table is left open |
| `RelayEnd.RefusedIsNeverClosed` | relay/router/relay_end.c:99-111 | A socket whose insert was refused is never closed while the session runs |
| `RelayEnd.RefusedIsReached` | relay/router/relay_end.c:77-111 | There are such sockets: of two BEGINs with one id, the second one's is refused and left open at the end |
| `RelayEnd.FreesOne` | relay/services/socket_hashmap.c:24-33 | The final sweep closes each socket of the table while it is still open |
| `RelayEnd.CopyStaysInside` | relay/net/relay_send_messages.c:17-28 | Received data stays inside the cell it is copied into exactly for reads of at most 497 bytes; of a read of 498 the last byte goes behind it |
| `RelayEnd.ReceivedIsShifted` | relay/net/relay_send_messages.c:17-28 | A client reads from the DATA cell for bytes of a socket a byte the buffer held and then all of them but the last, and so the socket's bytes exactly when each is that byte |
| `TorCells.StreamCellReads` | relay/net/relay_send_messages.c:5-38 | Every cell about a stream names the stream and the command it was made with |
| `RelayEndSession.EndRelay.constructor` | relay/router/relay_end.c:344-356 | A session starts with no streams and only the client watched |
| `RelayEndSession.EndRelay.HandleRelayBegin` | relay/router/relay_end.c:77-125 | In place: the streams' step for BEGIN, and its reply into the circuit |
| `RelayEndSession.EndRelay.HandleRelayData` | relay/router/relay_end.c:127-161 | In place: the streams' step for DATA, and its reply into the circuit |
| `RelayEndSession.EndRelay.HandleRelayEnd` | relay/router/relay_end.c:163-203 | In place: the streams' step for END, and its reply into the circuit |
| `RelayEndSession.EndRelay.HandleClientMsg` | relay/router/relay_end.c:205-256 | In place: the streams' step and the circuit's step for any cell, ending exactly on DESTROY |
| `RelayEndSession.EndRelay.HandleClientEvent` | relay/router/relay_end.c:298-308 | Reading a cell and acting on it is the circuit's step of the end relay |
| `RelayEndSession.EndRelay.HandleSocketEvent` | relay/router/relay_end.c:258-320 | In place: bytes received go to the client, the last of a full read to the byte behind the buffer; at the end of a stream it is closed, unwatched and reported |
| `RelayEndSession.EndRelay.FreeSockets` | relay/services/socket_hashmap.c:24-33 | Afterwards closed sockets are exactly the inserted ones, as multisets |

## Left out

- Sockets, epoll, threads, name lookup, commands, argument and configuration parsing and printing: they are queues, sets and parameters here.
- Failing sends and partial reads: cells for a node that has ended are left unread, where the source's sends would begin to fail.
- The end of a relay's process, which closes what its sessions have left open.
- The command loop of `client/router/client_session.c` and its prompts: any order of the commands is covered, with `exit` as the client leaving in `CircuitHangup`.
- Downloads from the socket to the user in one statement: `CircuitStreams.SocketIsForwarded` ends at the end relay's cells, and `Download.ReadIsAnswered` begins there.
- What the terminal shows of data read out: the source prints it as a string, up to the first zero byte of every 16.
- RelayEndSession.EndRelay.HandleSocketEvent: of a full read of 498 bytes the source writes the last behind the cell; that byte is a parameter here, and what it is a part of is not followed.
- A DATA cell whose length field exceeds 498: the source uses the field unchecked and runs on into the memory behind the cell, which is a parameter for the client; for the end relay the cell that is written is recorded, and statements on its bytes ask for a length in range.
- Agreement of the client's and the end relay's sets of streams: closed ids are reused at once, so an END for the old stream can remove the new one.
- GMP, `/dev/urandom` and the search for primes: powers are computed on naturals, and any modulus of at most 256 bytes is allowed.
- Link (TLS) key exchange before a cell is sent: link keys are given with the circuit.
- RelaySession.RelaySession.ExtendRelaySend: the source's function is split at its blocking read, as other nodes take steps while it waits.
- Directory handshakes, sign-up and sign-out messages and `server/services/socket_context.c`: bookkeeping.
- `free_relay_manager` and descriptors filled in after the manager's mutex is released: a new relay's descriptor is zero bytes here.
- RelayManager.RelayTable.RemoveRelay: for an id past the table the source reads out of bounds before it checks the bound; the read is not followed, as it changes nothing.
- RelayManager.RelayTable.GetRelayBatch: returns the cursor as a second result where the source overwrites its argument.
- StreamIds.ClientStreams.GenStreamId: asks for a free slot, as the source does not end otherwise.
- StreamIds.ClientStreams.Connect: asks for a free slot for the same reason.
- ClientProgram.Client.HandleInputConnect: asks for a free slot for the same reason.
- Memory exhaustion and 32-bit wrap of capacities and sizes.
- Secrecy and anonymity: only functional correctness is stated.

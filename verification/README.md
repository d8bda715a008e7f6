# A verified model of the communication testbed

The testbed moves small packets between a sender and a receiver, over UDP directly and over TCP through a proxy that
injects faults. A packet is a 16-byte big-endian header (magic, version, type, sequence, payload length, CRC-32) and
up to 1024 bytes of payload. Reliability is made by the programs themselves: the sender waits for each response under
one absolute deadline, retries, drops stale responses by the history of what it has completed, and reconnects; the
receiver processes each sequence number once and acknowledges every time.

This project models those programs in Dafny and proves what they promise, for all inputs and for all runs.
`dafny verify dfyconfig.toml` checks the whole project.

| file | content |
|---|---|
| `Words.dfy`, `Options.dfy`, `Deadlines.dfy`, `Repetition.dfy` | bytes, words, big-endian order, uint32 values; optional values; time; repetition |
| `Crc.dfy` | the bitwise CRC-32 as a loop, its algebra and its table form |
| `CrcPowers.dfy`, `PowerChains.dfy`, `PolynomialOrder.dfy` | the powers of x modulo its polynomial, and that their period is 2^32 - 1 |
| `LeadingZeros.dfy` | what the checksum's start value is for |
| `Codec.dfy` | encoding and decoding of packets and of UDP datagrams, and that the two are inverse |
| `Detection.dfy`, `BitErrors.dfy`, `FrameBursts.dfy` | bursts, one or two flipped bits, and the proxy's damage: what is always rejected, and what is not |
| `Framing.dfy` | message boundaries in a byte stream that may be cut anywhere |
| `Deliveries.dfy`, `GapTracker.dfy` | what has been processed; the first missing sequence number |
| `UdpReceiver.dfy`, `UdpSender.dfy` | the UDP programs, loop by loop |
| `UdpProtocol.dfy` | both with a network that loses, duplicates, reorders and damages, as one state machine |
| `UdpOutcomes.dfy` | exactly which configurations of that machine can succeed |
| `UdpExecutions.dfy` | what the two loops do together is a run of that machine |
| `TcpMoves.dfy` | the TCP sender's decisions, as moves, and what every sequence of them keeps |
| `Streams.dfy`, `TcpReceiver.dfy`, `TcpSender.dfy`, `TcpProxy.dfy` | the TCP programs, loop by loop |
| `TcpProtocol.dfy` | the three of them, on any number of connections cut at any byte, as one state machine |
| `TcpOutcomes.dfy` | exactly which configurations of that machine can succeed |
| `TcpExecutions.dfy` | what the sender's loop can hear through the proxy's and the receiver's |

How the parts fit. Each program is an imperative method or class over an environment class that stands for the
operating system: how many bytes a call moves, when a signal, a timeout, an error or the end of the stream comes, is
chosen arbitrarily. It also records, as ghost state, every failure it has reported and whether it has announced input
that has not been read; the contracts use this to say that no program leaves off without a cause. The contracts tie
each loop to pure functions: `Frame`, `Decode` and `NextFrame` for bytes, `Judge` and `Decide` for the sender's
decisions on a response and on the end of a wait, `Handle`, `Report`, `Reply` and `LogAfter` for the receivers,
`UpNext` and `DownNext` for the proxy. A sender's main loop tells what it does as a list of moves: a packet is sent, a
response heard, the deadline comes, a call fails. `Enabled` says which moves are possible where, `After` where they
lead, and `Play` puts them together; the loops' contracts say that the moves account for every byte written and read,
for the time waited and for every failure the operating system reported. The two state machines are built from those
same functions, and their invariants hold in every reachable state of every run, whatever the interleaving;
`UdpExecutions` and `TcpExecutions` carry the central one, that no response is ever rejected, back to the loops.

The fixed workloads of the programs are generalised: any list of items over UDP, any payload and number of heartbeats
over TCP, any retry limit, any fault mode.

Four results correct a natural expectation:

* Over UDP a workload that uses a sequence number twice is acknowledged in full but processed only once per number.
  `UdpProtocol.FinishedRun` proves that the log is the workload exactly when the numbers are distinct, and
  `UdpOutcomes.RepeatedNumberIsLost` gives a workload and a run in which the sender finishes and an item is lost.
* Not every configuration can succeed. `UdpOutcomes.FinishableExactly` proves that a run in which the UDP sender
  finishes exists if and only if every payload is at most 1024 bytes and the workload has at most as many different
  numbers as the receiver processes before it leaves its loop: one, or three in out-of-order mode.
  `TcpOutcomes.FinishableExactly` proves that for TCP one exists if and only if the payload is at most 1024 bytes, the
  proxy is not in its corruption mode, and, in the mode that drops the first ACK, there is at least one retry. In
  corruption mode nothing is ever processed.
* The proxy may damage more than one connection. It counts its damage as done only when the damaged frame has been sent
  in full; if that send fails after the inverted byte, the fault is still unused and strikes again.
  `TcpProxy.DamagedTwice` shows it on two connections, and `TcpProxy.AtMostOneFault` proves that more than one connection
  is affected exactly when such a failed send is followed, on a later connection, by another one or by the damage done
  in full.
* The checksum catches every change within four consecutive bytes of its input, but on the wire it stands, most
  significant byte first, in the middle of the frame. `FrameBursts.AlwaysCaughtExactly` proves that changes within four
  consecutive bytes of a frame are always caught unless the four bytes cross the end of the checksum field, and
  `FrameBursts.WindowHides` names two frames for each of the three windows that do.

## Model

| member | source | states |
|---|---|---|
| Crc.ComputeCrc32 | protocol/crc32.cpp:5-22 | the two nested loops compute the checksum that all results below speak about |
| Crc.TableForm | protocol/crc32.cpp:9-19 | on every byte string the bitwise register equals the table-driven one of section 8 of RFC 1952 |
| Crc.Rfc1952 | protocol/crc32.cpp:5-22 | the checksum is that of section 8 of RFC 1952, with its start value, table, and final complement, on every byte string |
| Crc.CrcAffine | protocol/crc32.cpp:5-22 | for three strings of equal length, the checksum of their sum is the sum of their checksums |
| Crc.CrcDifference | protocol/crc32.cpp:5-22 | the checksums of two strings of equal length differ by the zero-started register's image of their difference |
| Crc.RegisterConcat | protocol/crc32.cpp:9-19 | absorbing a concatenation is absorbing its parts in turn |
| Crc.ShiftsInjective | protocol/crc32.cpp:12-18 | any number of register bit steps loses no information |
| Crc.ShiftsOfUnshifts | protocol/crc32.cpp:12-18 | every register value is reached: the bit step has an inverse |
| CrcPowers.PowerDouble | protocol/crc32.cpp:12-18 | squaring a polynomial doubles the exponent of a power of x, modulo the CRC polynomial |
| PolynomialOrder.BackToX | protocol/crc32.cpp:12-18 | x to the 2^32 is x |
| PolynomialOrder.PrimeDividesReturns | protocol/crc32.cpp:12-18 | if the powers return after p times m steps with p prime, but not after m, then p divides every return |
| PolynomialOrder.OrderOfX | protocol/crc32.cpp:12-18 | x to the k is 1 if and only if k is a multiple of 2^32 - 1 |
| PolynomialOrder.PowersDistinct | protocol/crc32.cpp:12-18 | the first 2^32 - 1 powers of x are pairwise different |
| LeadingZeros.ZerosInFront | protocol/crc32.cpp:7-21 | zero bytes put in front of any data leave its checksum unchanged if and only if their number is a multiple of 2^32 - 1 |
| Detection.FourBytesReach | protocol/crc32.cpp:9-19 | from any register value, exactly one choice of four bytes leads to any given value |
| Detection.BurstChangesCrc | protocol/crc32.cpp:5-22 | inputs of equal length that differ only within four consecutive bytes have different checksums |
| Codec.AppendHalf | protocol/codec.cpp:14-22 | the buffer keeps what it had and grows by two bytes, from which a reader gets the value back |
| Codec.AppendWord | protocol/codec.cpp:24-32 | the buffer keeps what it had and grows by four bytes, from which a reader gets the value back |
| Words.JoinOfSplit | protocol/codec.cpp:47-58 | reading back a written 32-bit value gives the value |
| Words.SplitOfJoin | protocol/codec.cpp:24-58 | writing a 32-bit value that was read gives the bytes back |
| Codec.MakeCrcInput | protocol/codec.cpp:60-87 | the checksum's input is the header without the checksum field, then the payload |
| Codec.EncodePacket | protocol/codec.cpp:91-132 | the frame, or an error if and only if the payload exceeds 1024 bytes |
| Codec.FrameBytes | protocol/codec.cpp:91-132 | the frame byte by byte, as numbers: AA 55 01, the type, the sequence number and the length most significant byte first, the checksum of everything else, and the payload |
| Codec.PayloadLengthExact | protocol/codec.cpp:134-163 | a header announces n bytes if and only if it has 16 bytes, begins with AA 55 01, bytes 8 to 11 give n as a big-endian number, and n is at most 1024 |
| Codec.RefusedFor | protocol/codec.cpp:134-224 | the error is that of the first failing check: size, magic, version, length, payload size, checksum |
| Codec.DecodeOfFrame | protocol/codec.cpp:91-237 | decoding an encoded packet gives the packet back, for every type byte, sequence number and payload |
| Codec.FrameOfDecode | protocol/codec.cpp:165-237 | what decoding accepts is byte for byte the encoding of its result |
| Codec.DecodeExact | protocol/codec.cpp:165-237 | a header and payload decode to p if and only if they are the encoding of p |
| Codec.FrameInjective | protocol/codec.cpp:91-132 | different packets have different encodings |
| Codec.DatagramExact | udp/receiver.cpp:43-64 | the bytes stored of a datagram, at most 1040, are accepted as p if and only if they are exactly the encoding of p |
| Codec.FrameIsAccepted | udp/sender.cpp:54-75 | a datagram that holds an encoding is accepted |
| BitErrors.SyndromeOfFlip | protocol/codec.cpp:208-224 | flipping bit i of a frame moves its syndrome by a power of x of its own |
| BitErrors.BitErrorsRejected | protocol/codec.cpp:200-224 | an encoding with one or two bits flipped anywhere is rejected, by the decoder and as a datagram |
| BitErrors.BurstRejected | protocol/codec.cpp:200-224 | an encoding changed only within four consecutive bytes of the checksum's input is rejected |
| FrameBursts.FramesApart | protocol/codec.cpp:91-132 | two different encodings that differ only within four consecutive bytes of the frame differ across the end of the checksum field |
| FrameBursts.WindowHides | protocol/codec.cpp:91-132 | for each of the three windows across that end, two encodings that differ only there |
| FrameBursts.AlwaysCaughtExactly | protocol/codec.cpp:165-237 | every change of an encoding within the four bytes from position i is rejected if and only if i is not 13, 14 or 15 |
| BitErrors.DamagedRejected | fault_injector/tcp_proxy.cpp:102-112 | the proxy's damage leaves the header alone and is always answered by a CRC mismatch |
| Framing.NextOfFrame | tcp/receiver.cpp:112-133 | a whole frame at the front of a stream is read as its packet, whatever follows |
| Framing.GotIsFrame | tcp/receiver.cpp:112-133 | a packet is only ever read from its own frame |
| Framing.NextOfCutFrame | tcp/receiver.cpp:64-133 | a frame cut at any byte reads as unfinished, never as an error |
| Framing.NextIsFinal | tcp/receiver.cpp:112-133 | more bytes never change a verdict already reached |
| Framing.FramesPrefixFree | protocol/codec.cpp:91-163 | no encoding is a proper prefix of another |
| Framing.ParseOfFrames | tcp/receiver.cpp:112-133 | parsing a concatenation of frames, cut inside the next one, gives exactly those packets |
| Framing.FramesOfParse | tcp/receiver.cpp:112-133 | what is parsed is what was there: no byte is lost, repeated or reordered |
| Framing.ParseOfPrefix | tcp/receiver.cpp:112-133 | a stream cut anywhere gives a prefix of its packets and no error that the whole would not give |
| Framing.ParseAppend | tcp/receiver.cpp:30-62 | writing a whole frame onto a stream that ends at a boundary adds exactly that packet |
| Framing.ParseAppendCut | tcp/receiver.cpp:30-62 | writing part of a frame adds no packet |
| Deliveries.FirstOfEachMeaning | udp/receiver.cpp:129-148 | deduplication keeps every number once, each with the item that came first |
| Deliveries.FirstOfEachIdentity | udp/receiver.cpp:129-148 | deduplication changes nothing if and only if the numbers are distinct |
| Deliveries.RecordFirst | udp/receiver.cpp:129-148 | processing only unseen numbers, one packet at a time, is deduplication of all arrivals |
| GapTracker.Advance | udp/receiver.cpp:145-147 | the advance loop ends at the first missing value in cyclic uint32 order from 1, if any value is missing |
| GapTracker.FirstMissingUnique | udp/receiver.cpp:114-148 | the first missing value is determined by the set of processed values |
| GapTracker.SomeMissing | udp/receiver.cpp:145-147 | fewer than 2^32 processed values leave one for the loop to stop at |
| GapTracker.ReportExact | udp/receiver.cpp:135-137 | a new number exceeds the first missing one if and only if a smaller positive number is missing |
| UdpReceiver.Receiver.Process | udp/receiver.cpp:134-148 | a new packet is logged, reported if and only if a smaller positive number is missing, and the gap tracker stays exact |
| UdpReceiver.Receiver.ReceivePacket | udp/receiver.cpp:125-172 | one turn of the loop on a decoded packet: memory, acknowledgement and exit in all three modes, and a report exactly for a first arrival ahead of a gap |
| UdpReceiver.Receiver.Receive | udp/receiver.cpp:119-172 | one turn of the loop on a datagram, with the same report |
| UdpReceiver.Receiver.Serve | udp/receiver.cpp:114-172 | the whole loop over any datagrams ends with the memory, the acknowledgements and the out-of-order reports of a fold over them |
| UdpReceiver.ProcessedOnce | udp/receiver.cpp:119-172 | over any arrivals the log is the accepted DATA items, deduplicated, each with its first payload |
| UdpReceiver.AcksExact | udp/receiver.cpp:150-159 | every accepted DATA packet is acknowledged in order, duplicates too; only drop-first-ack leaves out the first |
| UdpReceiver.RunStops | udp/receiver.cpp:161-171 | after the receiver has left its loop, no arrival makes a difference |
| UdpReceiver.FailsExactly | udp/receiver.cpp:119-127 | the receiver fails if and only if, while running, it reads a datagram that is no packet or no DATA packet, and with that reason |
| UdpReceiver.FinishesExactly | udp/receiver.cpp:154-171 | the receiver leaves its loop if and only if it has accepted a DATA packet, in drop-first-ack mode the same number twice, in out-of-order mode three different numbers |
| UdpReceiver.FirstMissingIgnoresOrder | udp/receiver.cpp:114-148 | two receivers whose runs accept the same packets, in any order and however often, expect the same number next |
| Deadlines.CeilMs | udp/sender.cpp:91-92 | the poll timeout is the remaining time, rounded up by less than a millisecond |
| UdpSender.Sender.WaitForAck | udp/sender.cpp:77-128 | only empty ACKs with numbers already completed are skipped, all under one deadline; a decision on a packet falls strictly before it, and the wait ends less than 1 ms, plus the overrun of two calls, after it; a failed call ends it; no datagram that poll announced is left unread |
| UdpSender.AcceptExactly | udp/sender.cpp:114-120 | the only datagram accepted is the empty ACK with the expected number |
| UdpSender.Sender.SendDataWithRetry | udp/sender.cpp:130-147 | everything done for one item, told as moves from where the loop stands: each copy sent, each datagram heard, each deadline waited out in full and each failed call; it gives up only after retries + 1 copies of the item's frame and as many seconds |
| UdpSender.Sender.Await | udp/sender.cpp:77-147 | one wait as moves: any number of stale datagrams, and then the one that decides, the deadline or a failed call |
| UdpSender.Sender.SendAll | udp/sender.cpp:151-191 | the whole program as one play: what the moves send and hear is exactly what went over the socket, time passes for each deadline, and the failures reported are exactly those of the moves; it succeeds if and only if the moves get past every item, and gives up only after retries + 1 copies of one frame and as many seconds |
| UdpSender.PlayBounds | udp/sender.cpp:130-191 | in every play no item is sent more than retries + 1 times, only items that can be encoded are got past, and the history holds exactly their numbers |
| UdpSender.PassedByAck | udp/sender.cpp:114-147 | an item is got past if and only if the move hears its own empty ACK |
| UdpSender.HeardMeaning | udp/sender.cpp:114-126 | whatever is heard: no packet ends the program with the decoder's error, another type or a payload with a wrong acknowledgement, the current number completes the item, a completed one is skipped, any other ends it with a mismatch |
| UdpSender.OtherwiseMeaning | udp/sender.cpp:77-147 | sending begins a wait or, with too large a payload, ends the program; a timeout ends the wait; a failed call ends the program |
| UdpSender.ItemSoFar | udp/sender.cpp:130-147 | in every play, since the item in progress began, its frame has been sent as often as the attempts say, each copy but the one waited for having taken a timeout |
| UdpSender.GiveUpNeeds | udp/sender.cpp:134-146 | in every play, for every retry limit, giving up means retries + 1 copies of the current item's frame and retries + 1 timeouts since the item began |
| UdpProtocol.NextInv | udp/sender.cpp:77-147 | every step of sender, receiver and network keeps the invariant |
| UdpProtocol.AckExpected | udp/sender.cpp:114-126 | in any state the invariant allows, an acknowledgement on the wire is for the current or a completed item, unless the network damaged it; an accepted one is for a processed item |
| UdpProtocol.NoProtocolErrors | udp/sender.cpp:114-126 | no run reaches the sequence mismatch or the wrong-acknowledgement error, nor a packet of unexpected type; undecodable datagrams need a network that damages |
| UdpProtocol.ProcessedInOrder | udp/receiver.cpp:119-172 | at any moment the log is the items acknowledged so far, deduplicated and in order, and at most the one being sent |
| UdpProtocol.AcceptedIsProcessed | udp/sender.cpp:117-120 | for every accepted acknowledgement the log holds exactly one entry with that number, and it is the first item sent with it |
| UdpProtocol.FinishedRun | udp/sender.cpp:130-191 | a finished sender means the whole workload is processed in order; the log equals the workload if and only if the numbers are distinct |
| UdpOutcomes.RepeatedNumberIsLost | udp/receiver.cpp:129-133 | a workload that uses a number twice and a run in which it is acknowledged in full and the second item never processed |
| UdpOutcomes.FinishNeeds | udp/receiver.cpp:161-171 | no run finishes with more different numbers than the receiver stays for, or with a payload too large |
| UdpOutcomes.FinishableExactly | udp/sender.cpp:151-191 | a run that finishes exists if and only if all payloads fit and the receiver stays for all the numbers |
| UdpExecutions.LoopsAreRun | udp/sender.cpp:151-191 | what the sender's and the receiver's loops do, each hearing only what the other has sent by then, is a run of the state machine that ends in the loops' own states |
| UdpExecutions.LoopsNeverMismatch | udp/sender.cpp:114-126 | so the sender's loop never ends in a mismatch, a wrong acknowledgement or an undecodable one; and when it has got past every item, the receiver has processed the workload, deduplicated |
| Streams.RecvExact | tcp/receiver.cpp:64-98 | exactly the next bytes of the stream, in whatever pieces they come; end of stream only if too few are left |
| Streams.ReceivePacket | tcp/receiver.cpp:112-133 | takes exactly the next frame, or says why there is none |
| Streams.SendAll | tcp/receiver.cpp:30-62 | under any partial sends, all the bytes go out in order, or a proper prefix of them and a reported failure |
| Streams.SendPacket | tcp/receiver.cpp:100-110 | the whole frame goes out, or a proper prefix of it |
| TcpProtocol.ReplyIsAwaited | tcp/receiver.cpp:250-298 | what the receiver replies to a DATA or HEARTBEAT packet is accepted by the sender in exactly that packet's exchange |
| TcpReceiver.LogAfterAppend | tcp/receiver.cpp:236-266 | one more packet adds to the log if and only if it is DATA with a new number |
| TcpReceiver.ReplyBytes | tcp/receiver.cpp:231-298 | the reply on the wire: 16 bytes, type 2 to type 1 and 4 to 3, with the same four sequence bytes; none to any other type |
| TcpReceiver.Receiver.Handle | tcp/receiver.cpp:236-266 | the set of processed numbers follows the deduplicated log of everything handled |
| TcpReceiver.Receiver.ServePacket | tcp/receiver.cpp:231-307 | one turn of the inner loop: read, note, answer, or leave for the right reason, an end of stream or a failed call having been reported |
| TcpReceiver.Receiver.ServeConnection | tcp/receiver.cpp:231-307 | one connection: the first complete frames are handled and answered in order; it ends by a reported end of stream, at the first bad frame, at the first packet of unknown type or by a reported failure of a call |
| TcpReceiver.Receiver.Run | tcp/receiver.cpp:203-314 | every connection but the last served is handled and answered to its end of file; a fault leaves the last as ServeConnection describes and later ones untouched; without a fault everything handled is the complete frames of all connections, in order |
| TcpReceiver.AcknowledgedIsProcessed | tcp/receiver.cpp:203-274 | no number is processed twice on any connections, each with its first payload, and every ACK is for a processed number |
| TcpReceiver.CutFrameLeavesNoTrace | tcp/receiver.cpp:84-88 | a frame cut off by the end of its connection changes nothing; sent again on a later connection it is handled as new |
| TcpSender.RecvExact | tcp/sender.cpp:78-136 | what is taken off the stream is counted; a timeout means the deadline has come; polls end within a millisecond of it |
| TcpSender.ReceivePacket | tcp/sender.cpp:144-155 | exactly the next frame; or else what came off is the beginning of a frame, its length known, or bytes that the codec refuses with just this error; a lost connection or a failed call has been reported |
| TcpSender.WaitForResponse | tcp/sender.cpp:157-204 | skips only empty responses already completed; then one whole frame decides or comes too late, or the wait fails after the beginning of a frame or bytes that are none, for a reason reported on the connection; any other response is refused as invalid or unexpected; the connection is closed if and only if the deadline comes inside a frame; every decision on a response falls strictly before the one deadline; completion is recorded only for the accepted response; no input that poll announced is left unread |
| TcpMoves.AcceptExactly | tcp/sender.cpp:186-194 | the only response accepted is the empty one of the awaited type and number |
| TcpSender.SendAll | tcp/sender.cpp:44-71 | all the bytes in order, or a proper prefix and a failure |
| TcpSender.SendPacket | tcp/sender.cpp:138-142 | the frame, a proper prefix of it with a failure reported on the connection, or nothing for a payload too large |
| TcpSender.ConnectWithRetry | tcp/sender.cpp:238-268 | a new connection after fewer than three failed attempts, or none after exactly three |
| TcpSender.SendData | tcp/sender.cpp:275-325 | the DATA exchange as moves on one connection, which account for all its traffic: every frame sent, every response heard, every deadline waited out in full; it gives up only after retries + 1 whole copies and as many seconds |
| TcpSender.Attempt | tcp/sender.cpp:338-381 | one transmission and its wait, as moves: the frame, written in full or cut by a reported failure; stale responses; and the end of the wait, from which the next state follows |
| TcpSender.Heartbeat | tcp/sender.cpp:327-401 | one heartbeat as moves, which account for all the traffic on the connection at hand and, only after a timeout or a reported loss, on a new one; a missing response or a lost connection is fatal only there, after a whole second copy in the first case; failing to connect takes three failed attempts |
| TcpSender.Run | tcp/sender.cpp:272-403 | the whole program as one play: its traffic, connection by connection, is exactly what was written, read and reported on the connections made, and time passes for each deadline; the fault is the one that the moves end in; a run without fault has got past every exchange and collected ACK 1 and the heartbeat responses, and nothing else |
| TcpMoves.HeartbeatResponsesMeaning | tcp/sender.cpp:327-401 | those heartbeat responses are exactly the ones numbered 2 to count + 1 |
| TcpMoves.PlayBounded | tcp/sender.cpp:286-401 | in every play DATA is transmitted at most retries + 1 times, each heartbeat at most twice, and the responses collected are exactly those of the exchanges got past |
| TcpMoves.SecondOnNewConnection | tcp/sender.cpp:364-381 | a heartbeat can be sent a second time only right after a new connection was made |
| TcpMoves.HeardMeaning | tcp/sender.cpp:178-201 | whatever is heard: another type or a payload is fatal as invalid, the awaited response completes the exchange, that of an earlier exchange is skipped, any other is fatal as unexpected |
| TcpMoves.FailureMeaning | tcp/sender.cpp:286-396 | every failure is fatal with its own reason, except that a heartbeat's first transmission survives a lost connection; a timeout lets DATA be sent again while there are retries, and a heartbeat once, on a new connection |
| TcpMoves.DataSoFar | tcp/sender.cpp:288-321 | in every play, as long as the DATA exchange goes on, the one connection carries exactly as many whole copies as there were attempts, each but the last having taken a second |
| TcpMoves.GivesUpOnlyAfter | tcp/sender.cpp:288-396 | in every play, for every retry limit, DATA is given up only after retries + 1 whole copies and as many seconds; a heartbeat for a missing response only after a whole second copy on another connection, for a lost connection only on its second transmission |
| TcpMoves.AskedHere | tcp/sender.cpp:338-381 | a response is only ever awaited on the connection on which its request was sent |
| TcpMoves.PassedByResponse | tcp/sender.cpp:190-194 | an exchange is got past if and only if its own response is heard while awaited |
| TcpMoves.FinishedPlay | tcp/sender.cpp:272-403 | a play past every exchange has heard every expected response and collected exactly those |
| TcpMoves.GoesOnAtBoundary | tcp/sender.cpp:166-182 | as long as the sender goes on with a connection, it has written whole frames to it and read whole frames from it |
| TcpProxy.SendCorruptedPacket | fault_injector/tcp_proxy.cpp:102-112 | the frame with its first payload byte inverted, or a proper prefix of that; nothing for a packet without payload |
| TcpProxy.DamagedBytes | fault_injector/tcp_proxy.cpp:102-112 | damage is the inversion of byte 16 of the frame, the first of the payload |
| TcpProxy.Proxy.RelayUp | fault_injector/tcp_proxy.cpp:289-327 | one frame from the sender: forwarded, damaged, or the connection left; the flag is set when the fault is done |
| TcpProxy.Proxy.RelayDown | fault_injector/tcp_proxy.cpp:329-358 | one frame from the receiver: passed, dropped or delayed |
| TcpProxy.Proxy.Round | fault_injector/tcp_proxy.cpp:276-367 | one round of the loop: what poll announces is dealt with, and the connection is left only for one of the reasons that `Relay` has |
| TcpProxy.Proxy.Relay | fault_injector/tcp_proxy.cpp:264-369 | one connection follows the fault mode, byte for byte in both directions, up to the frame in which it fails; it is left only when one side has nothing more to read, a call has failed, a side has hung up with no announced input unread, or the mode's own fault ends it |
| TcpProxy.Serve | fault_injector/tcp_proxy.cpp:379-428 | over all accepted connections the flag is handed on from each to the next, and each is relayed until there is such a reason, or turned away because the receiver could not be reached |
| TcpProxy.CorruptedUp | fault_injector/tcp_proxy.cpp:292-301 | the first DATA packet is damaged and all else forwarded; if it has no payload, the connection is left with the fault unused |
| TcpProxy.DisconnectedUp | fault_injector/tcp_proxy.cpp:303-318 | the first heartbeat is withheld and the connection left |
| TcpProxy.FaultyDown | fault_injector/tcp_proxy.cpp:332-350 | dropping removes exactly the first ACK; delaying changes neither content nor order |
| TcpProxy.PassageMeaning | fault_injector/tcp_proxy.cpp:264-369 | a connection that uses up the fault shows exactly the fault of the mode; one that does not is carried byte for byte, up to its last frame, if and only if no send of a damaged frame failed after the inverted byte |
| TcpProxy.DeviatesExactly | fault_injector/tcp_proxy.cpp:289-303 | in corruption mode a connection is not carried byte for byte if and only if a damaged frame got at least its inverted byte across, by a failed send with the fault still unused, or by using it up |
| TcpProxy.AtMostOneFault | fault_injector/tcp_proxy.cpp:379-428 | the fault is used up on at most one connection; at most one connection is not carried byte for byte if and only if no failed send of damaged bytes is followed, on a later connection, by another or by the damage done in full; in every other mode that never happens |
| TcpProxy.DamagedTwice | fault_injector/tcp_proxy.cpp:292-301 | for any DATA packet of two or more bytes, two connections of one proxy that both carry its damaged bytes |
| TcpProxy.DamageIsRefused | fault_injector/tcp_proxy.cpp:102-112 | a reader of the stream gets everything before a damaged frame and then refuses it for its checksum |
| TcpProxy.NextOfCutDamaged | fault_injector/tcp_proxy.cpp:102-112 | a damaged frame that is cut short reads as unfinished |
| TcpProtocol.NextInv | tcp/sender.cpp:272-403 | every step of sender, proxy and receiver, on every connection, keeps the invariant |
| TcpProtocol.NeverRejected | tcp/sender.cpp:186-201 | the response to any transmitted request is the awaited one or one collected before |
| TcpProtocol.NoProtocolErrors | tcp/sender.cpp:186-201 | in no run and no fault mode does the sender meet a response to reject or a frame it cannot decode, nor the receiver an unexpected type; only corruption makes the receiver refuse a frame |
| TcpProtocol.LiveResponses | tcp/sender.cpp:186-201 | every response on the live connection answers a request sent on that same connection and handled by the receiver, and is awaited or already collected |
| TcpProtocol.ProcessedAtMostOnce | tcp/receiver.cpp:202-266 | across retries, faults, cuts and reconnections, the payload is processed at most once, and nothing else ever is |
| TcpProtocol.AcceptedIsProcessed | tcp/sender.cpp:190-194 | an accepted ACK means the payload has been processed exactly once; an accepted heartbeat response, that the heartbeat was handled |
| TcpProtocol.FinishedRun | tcp/sender.cpp:327-403 | a finished sender has collected exactly the expected responses, and the receiver has handled every request |
| TcpOutcomes.CorruptionIsFatal | fault_injector/tcp_proxy.cpp:292-301 | in corruption mode no run ever processes anything or gets past the DATA exchange |
| TcpOutcomes.DropWithoutRetryIsFatal | fault_injector/tcp_proxy.cpp:332-337 | with the ACK dropped and no retry, no run gets past the DATA exchange |
| TcpOutcomes.DropIsRetried | tcp/sender.cpp:288-321 | a dropped ACK can be made good by a retry on the same connection |
| TcpOutcomes.DisconnectIsRepaired | tcp/sender.cpp:364-396 | a forced disconnection can be made good by resending the heartbeat on a new connection |
| TcpOutcomes.FinishableExactly | tcp/sender.cpp:272-403 | a run that finishes exists if and only if the payload fits, the proxy does not corrupt, and a dropped ACK leaves a retry |
| TcpExecutions.ReadsReplies | fault_injector/tcp_proxy.cpp:264-369 | through the proxy's loop, in any fault mode, the sender reads only replies to packets that it sent on the same connection and that the receiver's loop has handled |
| TcpExecutions.LoopsNeverReject | tcp/sender.cpp:186-201 | so the sender's loop never ends in an invalid, unexpected or undecodable response |
| TcpExecutions.PassedIsHandled | tcp/sender.cpp:190-194 | when the sender's loop gets past an exchange, the receiver's loop has handled its request, on the same connection |

## Left out

- Socket creation, bind, listen, connect, shutdown and the errno values behind each outcome: replaced by environment classes that choose the outcome.
- Console output and argument parsing: only the processed log and the out-of-order reports are kept, as ghost state.
- Real time: the clocks are integers of nanoseconds; the pauses between heartbeats and connection attempts, and the proxy's 700 ms, are arbitrary amounts of time.
- Poll and scheduler overrun: no call exceeds its limit by more than an arbitrary constant, the slack; with slack zero the waits end less than 1 ms after the deadline. Each poll takes some time, which is what makes the deadline loops end.
- Interrupted reads, writes and polls without a deadline: finitely many of them, as the programs would otherwise retry for ever.
- The internals of the standard library's sets: mathematical sets.
- Liveness: the state machines prove safety and exactly which configurations can finish; that a run does finish would need fairness of the network and the scheduler. The UDP receiver may leave its loop at any time, as it does in its one-shot modes.
- Running the loops at the same time: that each hears only what the others have sent by then is the hypothesis of the results in `UdpExecutions` and `TcpExecutions`, stated in the terms of the loops' contracts.
- Receiver restart, several senders, reuse of sequence numbers between sessions, checks of the peer's address.
- Recovery from corruption: the receiver stops at the first bad checksum, so rejection is proved, not recovery.
- Damage to the length field on a TCP stream: the state machine damages frames as the proxy does; one or two flipped bits are proved to be rejected for a frame whose bytes arrive together, as in a datagram.
- The scripts that reproduce failures, generate pictures and check artifacts.
- UdpReceiver.Receiver.Receive: assumes that fewer than 2^32 - 1 numbers have been processed, as with all of them processed the source's advance loop does not end; the source's `int` counter of unique packets is unbounded here.
- UdpReceiver.Receiver.Serve: takes fewer than 2^32 datagrams, for the same reason.
- TcpSender.Run: at most 2^32 - 2 heartbeats, so that their sequence numbers, which the source counts in a uint32, do not wrap round.
- TcpProtocol.NextInv: an endpoint reads a frame in one step once all its bytes are there; that reading in pieces comes to the same is the contract of the reading methods. Connections are served in any interleaving, which includes the one-at-a-time order of the programs.

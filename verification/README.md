# embassy-nina: verification model

A Dafny 4.11 model of the embassy-nina driver for the u-blox NINA-W102 running the
WiFiNINA firmware, from the bytes on the SPI bus up to several tasks reading and
writing sockets through one shared chip.

`dafny verify dfyconfig.toml` checks everything.

## How it is built

| file | content |
|---|---|
| `Bytes.dfy`, `Proto.dfy` | sequence regrouping facts; frame constants, opcodes, errors, socket states |
| `Requests.dfy` | request frames: the host's encoding and the chip's decoding |
| `Replies.dfy` | reply frames: the three decoders as total functions of the MISO stream |
| `ScanList.dfy` | the stored `[len, bytes]*` list: the iterator class and the two fixed-shape readers |
| `Acks.dfy` | chunking, acks, the saturating byte count |
| `Machine.dfy`, `Runs.dfy` | every multi-exchange operation as a machine that asks for one exchange at a time; logs of transfers as runs of it |
| `Conversations.dfy` | what each operation says and hears, in the bytes the chip reads and the driver decodes, and what that decides |
| `Ledger.dfy` | what becomes of the slots that connects are handed |
| `Driver.dfy`, `Sockets.dfy` | the driver, socket and stack classes with their loops, proved to run the machine |
| `ChipModel.dfy`, `Session.dfy` | the chip as an environment; one operation against it, byte frames in between |
| `Shared.dfy` | any number of tasks sharing the chip through the mutex |
| `Progress.dfy` | runs that exist: sends and datagrams that finish, every list of acks, refused begins |
| `Udp.dfy` | datagram assembly |

The layers meet in three places. The class methods are proved against the machine:
each says that the transfers it logged take the machine from the operation's start to
the result it returns. Every logged transfer is faithful: what was clocked out is the
wire image of the command, or a front of it when the bus failed; what was returned is
the decoding of the stream the bus offered. The session and the shared system run the
same machine against a chip that decodes those bytes, so a theorem about the chip's
streams is a theorem about `write(buf)` down to the accepted bytes.

What may go wrong is chosen by the environment at every step: a pin operation may fail,
a write call may fail after clocking out any part of its bytes, a MISO stream may carry
any noise and end anywhere (a bus error), and the chip chooses how much of a chunk it
takes, how much it delivers and what it answers.

The chip is assumed to do the following. A frame it can parse replaces any pending reply;
bytes it cannot parse have no effect on streams and leave nothing to reply. A state query
is answered, if with one parameter, with the state of the slot it names; the network may
change any slot's state at any time. It acks a chunk
with the number of bytes it took. A pull delivers at least one byte if any are
queued and at most the number asked for. While the host receives, the bus carries idle
bytes and then nothing, an error marker, a front of the chip's pending reply, or all of it
and anything behind it; the only other streams considered are ones so damaged that the
decoder refuses them. Nothing is assumed about what the host makes of a stream the chip
offers: that every decoder reads the chip's reply or nothing is proved
(`Session.OfferedIsTruthful`). "Strict" runs further assume that a chunk is taken whole or
not at all; the other results hold for partial acks as well.

## Where code and documentation differ

The model follows the code.

- `src/proto.rs:22-23` says that opcodes with bit 0x40 use 16-bit lengths; 0x50 to 0x54
  have that bit and are sent with 8-bit lengths (`src/driver.rs:531`). The model uses
  16-bit lengths for 0x44, 0x45 and 0x46 only.
- `src/driver.rs:797-801` promises that a successful `tcp_send` returns `data.len()`.
  `Session.SendReportsLength` gives the exact condition for every run and
  `Progress.ShortChunkRun` a run that breaks it: a partly acked chunk is never resent.
- `src/driver.rs:1301-1302` says that up to `out.len()` payload bytes are copied; a longer
  payload is refused with `BufferTooSmall` and nothing is copied
  (`Replies.LongPayloadRefused`).
- A state reply with an empty payload reads as `Closed`, because it leaves the zeroed
  buffer as it is (`src/driver.rs:775-779`); `Conversations.EofNeedsClosed` says so.
- `udp_begin_packet` returns Ok also when the chip refuses (`src/driver.rs:728-734`):
  `Progress.RefusedBegin`. The one-call send then returns Ok for a datagram that is not the
  one it was given (`Progress.MisdirectedDatagram`), unless the reply it ignored was the
  byte 1 or the leftover packet happened to match: `Udp.DatagramAssembly`.

## Model

| member | source | states |
|---|---|---|
| `Requests.FrameRoundTrip` | src/driver.rs:1111-1123 | a frame followed by anything reads back as the command and parameters that went in if and only if there are at most 255 of them and every length fits its prefix |
| `Requests.ChipRoundTrip` | src/driver.rs:1098-1129 | the same for the chip's decoder, which takes the width from the opcode and the number from the count byte, whatever START, END or ERR bytes the payloads hold |
| `Requests.TakenReencodes` | src/proto.rs:13-23 | whatever parameters a decoder accepts re-encode to exactly the bytes it read |
| `Requests.TornFrame` | src/driver.rs:1111-1127 | a transmission cut anywhere is the whole command or no command |
| `Requests.StagedFrameDecodes` | src/driver.rs:1140-1175 | a frame of at most 256 bytes never truncates a count or a length and decodes to what it was built from, followed by its padding |
| `Requests.KnownFrames` | src/proto.rs:13-23 | four request frames byte for byte, short and long, with their padding |
| `Requests.WireAligned` | src/driver.rs:1287-1294 | the wire image is a multiple of four long, has fewer than four trailing DUMMY bytes behind END, and fits 256 bytes exactly when the bare frame does |
| `Driver.Nina.SendCmd` | src/driver.rs:1098-1129 | one faithful transfer: on Ok the streamed bytes are the wire image, on a bus error a front of it, and it never fails with BufferTooSmall; callable only when every earlier send has been answered for, and on Ok only a receive for this command may follow |
| `Driver.Nina.WriteFrame` | src/driver.rs:1111-1124 | the piecewise writes and the padding add up to the wire image, and a failing write leaves a front of it |
| `Driver.Nina.PadTo4` | src/driver.rs:1287-1294 | exactly the padding bytes are written |
| `Driver.Nina.SendCmdMixed` | src/driver.rs:1135-1197 | the same wire image in one write; BufferTooSmall if and only if the frame exceeds 256 bytes, and then no pin or bus operation happens |
| `Driver.StageFrame` | src/driver.rs:1140-1183 | the staging buffer holds the wire image if and only if the frame fits |
| `Driver.StagePadding` | src/driver.rs:1176-1182 | padding is appended within the buffer; its own bounds check cannot fire |
| `Replies.DecodeExact` | src/driver.rs:1221-1285 | each of the three decoders succeeds with given parameters if and only if at most 999 idle bytes and then exactly the chip's encoding of them open the stream, and they fit the caller's room |
| `Replies.HuntFails` | src/driver.rs:1424-1439 | when the START hunt ends in Nina, Timeout or a bus error, each as an if-and-only-if on the stream |
| `Replies.KnownReplies` | src/proto.rs:13-23 | reply streams byte for byte for each of the three decoders, and one that is refused |
| `Replies.DecodeStores` | src/driver.rs:1380-1402 | a successful decoder has stored exactly the payload, or the whole length-prefixed list |
| `Replies.OneAgreesWithInto` | src/driver.rs:1347-1479 | on one stream, the one-parameter decoder with room k and the list decoder with room k+1 accept the same payloads, the latter storing the length byte in front |
| `Replies.OneAgreesWith16` | src/driver.rs:1256-1284 | the same reply with a 16-bit length delivers the same payload |
| `Replies.CutReply` | src/driver.rs:1347-1479 | for all three decoders: a reply that fits, behind noise and cut anywhere, is delivered or gives a bus error or a timeout, never BufferTooSmall, Framing or other bytes |
| `Replies.LongPayloadRefused` | src/driver.rs:1261-1264 | a payload longer than the room gives BufferTooSmall with nothing stored, in both one-parameter decoders |
| `Replies.OffersMeaning` | src/driver.rs:1423-1439 | what the bus may offer, read without the scan: clean noise and then nothing, an error marker, a front of the message, or all of it |
| `Driver.WroteFits` | src/driver.rs:1387-1390 | no decoder writes beyond its room, on any outcome |
| `Driver.Nina.HuntStart` | src/driver.rs:1423-1439 | the polling loop refines the hunt |
| `Driver.Nina.RecvCmdOneParamInner` | src/driver.rs:1416-1479 | result and buffer are the decoder's, the buffer unchanged past what was stored |
| `Driver.Nina.RecvCmdOneParam16Inner` | src/driver.rs:1221-1285 | the same with a 16-bit length |
| `Driver.Nina.ReadItems` | src/driver.rs:1380-1402 | the parameter loop stores the list the reply carries |
| `Driver.Nina.RecvCmdIntoInner` | src/driver.rs:1347-1414 | the same for the list decoder, returning count and bytes stored |
| `Driver.Nina.RecvCmdOneParam` | src/driver.rs:1303-1322 | one faithful transfer in one window |
| `Driver.Nina.RecvCmdOneParam16` | src/driver.rs:1201-1219 | one faithful transfer in one window |
| `Driver.Nina.RecvCmdInto` | src/driver.rs:1327-1345 | one faithful transfer in one window |
| `Driver.ClockedInWindow` | src/driver.rs:1102-1127 | in any trace the class invariant allows, a bus operation lies in a window that was opened by CS low directly after an ACK-low wait |
| `Driver.Nina.SelectChip` | src/driver.rs:1104-1109 | CS goes low only after ACK was seen low |
| `Driver.Nina.DeselectChip` | src/driver.rs:1127-1127 | the window ends; CS is high again unless the ignored pin error occurred |
| `ScanList.ScanIter.Next` | src/scan.rs:60-72 | cuts one length-prefixed item off the front and counts it, or leaves the iterator unchanged |
| `ScanList.DrainInvertsTlv` | src/scan.rs:58-73 | a stored list is yielded item by item, bytes and count running out together |
| `ScanList.ScanInvertsReply` | src/driver.rs:169-175 | iterating over what a successful list reply stored yields exactly the chip's parameters |
| `ScanList.DrainAny` | src/scan.rs:44-49 | on any buffer and count, the items are consecutive in-bounds slices, at most the count of them, and the end is final |
| `ScanList.RemoteTests` | src/driver.rs:969-981 | the byte tests say exactly that the first two parameters have lengths 4 and 2, and the address and port are the bytes behind those lengths, high byte first |
| `ScanList.IpConfigTests` | src/driver.rs:1055-1093 | with three or more parameters, three length bytes 4 in their places, and nothing else, give an address, a subnet and a gateway, from these bytes in this order |
| `Driver.TakeV4` | src/driver.rs:1067-1084 | the cursor step accepts exactly a four-byte item and moves to the next |
| `Driver.Nina.GetIpConfig` | src/driver.rs:1055-1093 | Ok exactly for three or more parameters of which the first three have length 4: address, subnet and gateway are the first, second and third |
| `Driver.Nina.UdpRemote` | src/driver.rs:963-982 | Ok exactly if the first two parameters exist with lengths 4 and 2: the first is the address, the second the port, high byte first |
| `Acks.TotalIsCappedSum` | src/driver.rs:809-835 | the saturating accumulation is the sum capped at 65535 |
| `Acks.KeptAtPositions` | src/driver.rs:810-836 | partial acks keep the bytes at positions `64 i` to `64 i + ack i`, in order |
| `Acks.CountMeansPrefix` | src/tcp.rs:108-111 | a reported n means "exactly the first n positions were accepted" if and only if all chunks but the last were acked in full and the sum is at most 65535 |
| `Acks.CountIsLength` | src/driver.rs:797-802 | a completed send reports the data's length if and only if every chunk was acked in full and the length is at most 65535 |
| `Acks.ShortChunkCounterexample` | src/driver.rs:820-833 | what acks of 63 and 1 keep of any 65 bytes: all but the 64th, with a total of 64 |
| `Session.SendReportsLength` | src/driver.rs:797-802 | every successful run reports the data's length if and only if the slot gained exactly the data and the length is at most 65535 |
| `Progress.EveryAckHappens` | src/driver.rs:812-834 | every list of truthful acks, short ones included, occurs in a successful run, each behind up to four refusals and with up to nineteen waits, in one byte or two; the run reports their capped sum and leaves what they kept on the slot |
| `Progress.ShortChunkRun` | src/driver.rs:797-801 | a successful run over 65 bytes that reports 64 and leaves the slot without the 64th byte |
| `Driver.Nina.TcpSend` | src/driver.rs:802-836 | chunk, retry and drain loops run the machine of a write to the returned result |
| `Driver.Nina.CheckDataSent` | src/driver.rs:843-854 | the drain loop runs the machine from the first poll to the next chunk or the error |
| `Driver.Nina.SendChunk` | src/driver.rs:813-824 | one exchange; the ack is one byte or two little-endian bytes, anything else is Framing |
| `Driver.Nina.TcpRecv` | src/driver.rs:858-871 | one exchange asking for the capped room, little-endian; the payload fills the front of the buffer |
| `Driver.Nina.TcpOpenSocket` | src/driver.rs:703-711 | one exchange; 0xFF means no slot |
| `Driver.Nina.TcpStartClient` | src/driver.rs:715-761 | one exchange with four or five parameters, port big-endian; any well-framed answer is Ok |
| `Driver.Nina.TcpState` | src/driver.rs:772-780 | one exchange, an empty payload reading as state 0 |
| `Driver.Nina.TcpClose` | src/driver.rs:986-999 | one exchange with the stop command |
| `Driver.Nina.DnsLookup` | src/driver.rs:669-697 | request and polling loop run the machine; Ok only with four non-zero bytes |
| `Driver.Nina.Establish` | src/nal.rs:244-257 | open, start, poll and give-up run the machine of a connect |
| `Driver.Nina.TcpConnect` | src/driver.rs:1004-1032 | the same with plain TCP and 40 polls |
| `Driver.Nina.UdpBeginPacket` | src/driver.rs:917-924 | a start with UDP mode |
| `Driver.Nina.UdpInsert` | src/driver.rs:929-943 | refused in framing, with nothing on the bus, if and only if the slice exceeds 247 bytes |
| `Driver.Nina.UdpWrite` | src/driver.rs:929-943 | runs the machine of an insert |
| `Driver.Nina.UdpSend` | src/driver.rs:899-910 | Ok only if begin, write and commit ran in that order and each returned Ok; an error is that of the first step that failed, and nothing is sent after it |
| `Driver.Nina.UdpEndPacket` | src/driver.rs:947-959 | runs the machine of a commit |
| `Sockets.NinaTcpSocket.Read` | src/tcp.rs:77-96 | the polling loop runs the machine of a read; the delivered bytes are the front of the buffer, the rest is unchanged |
| `Sockets.NinaTcpSocket.Write` | src/tcp.rs:108-111 | the result of the send, on the socket's slot |
| `Sockets.NinaTcpSocket.Close` | src/tcp.rs:49-51 | one stop on the socket's slot |
| `Sockets.NinaStack.Connect` | src/nal.rs:233-258 | IPv6 is refused untouched; IPv4 runs the machine of a connect with 40 polls |
| `Sockets.NinaStack.ConnectHostname` | src/nal.rs:112-134 | lookup, then a connect with the name for SNI and 80 polls |
| `Machine.WorkBound` | src/driver.rs:808-854 | every run of an operation other than a read makes at most 25 exchanges per chunk, three more than the polls for a connect (43), 41 for a lookup, both for a connect by name (124), one otherwise |
| `Machine.SmallRequests` | src/driver.rs:813-817 | chunk and pull requests take at most 76 bytes, survive the chip's decoding and never fail in framing |
| `Machine.RunsArePaired` | src/driver.rs:680-694 | every log is made of failed sends and of sends followed by the receive for the same command, inside error-swallowing loops too |
| `Ledger.SlotLedger` | src/driver.rs:1009-1031 | a finished connect has exactly one fate for its slot: none obtained; returned after a poll of that slot answered 4; stopped once after all polls of that slot were not; left open, because its start or a poll of it failed; and its client was started on that slot for the given or looked-up address |
| `Ledger.LedgerOfMany` | src/nal.rs:112-134 | over any sequence of connects, by address or name: one fate each, the slots handed out on the bus are the fates' slots in order, and the stops are those of the slots that timed out |
| `Conversations.EofNeedsClosed` | src/nal.rs:177-188 | a read ends with no bytes only when the last four transfers are a pull from its slot as the chip reads it, an empty reply, a state query naming its slot, and an answer that is empty or one of 0, 7, 8, 9, 10 |
| `Conversations.LookupMeaning` | src/driver.rs:669-697 | a successful lookup opens with the name, read so by the chip and answered 1, and ends with the four non-zero bytes of a well-formed reply to an address poll |
| `Conversations.LookupConversation` | src/driver.rs:669-697 | a whole lookup, exchange by exchange: the name once, then at most 40 polls; which reply ends it and with what result; Nina exactly if the first exchange failed so or was not answered 1 |
| `Conversations.ConnectConversation` | src/driver.rs:1004-1032 | a whole connect: one slot asked for, a start on that slot for this address, polls of that slot until 4 or the limit, then its stop; which reply ends it and with what result |
| `Conversations.ConnectHostConversation` | src/nal.rs:112-134 | a connect by name is a whole lookup of the name and then a whole connect to the address found |
| `Conversations.StartNamesSlot` | src/driver.rs:1009-1010 | in any run of a connect by address, the start request carries the address, the port high byte first, the slot just handed out and the mode, and the chip reads just that |
| `Conversations.StartNamesAddress` | src/nal.rs:118-122 | in any run of a connect by name, the start request carries the name and the address of the last address reply, then port, slot and mode |
| `Conversations.ReadConversation` | src/nal.rs:172-191 | a whole read: rounds of an empty pull and an open state, both of its own slot; a closed-side byte ends it with no bytes and any other goes round again; which reply ends it and with what result |
| `Conversations.WriteConversation` | src/driver.rs:802-854 | a whole send: chunks in order, each offered up to five times, each followed by up to twenty queries about its own slot; Nina only at the fifth empty ack, Timeout only at the twentieth wait, Framing only at an ack of no known form, or a bus error |
| `Conversations.SingleTalk` | src/driver.rs:929-999 | close, begin, write and commit send one request with their own slot and data; which reply gives Ok |
| `Session.StepKeeps` | src/driver.rs:810-834 | every transfer of every operation keeps the relation between the driver's loop state and what the chip has taken or delivered |
| `Session.StepMoves` | src/driver.rs:858-871 | every transfer moves bytes only on its own slot and side, none lost or duplicated |
| `Session.SendEndToEnd` | src/driver.rs:802-836 | with all-or-nothing acks: on Ok the slot gained exactly the data and the result is its length capped at 65535; on Err whole chunks from its front; other slots gained nothing |
| `Session.PartialSend` | src/driver.rs:825-833 | with partial acks: the slot gained what truthful acks kept and the result is their capped sum |
| `Session.LoggedSend` | src/tcp.rs:108-111 | the send method's log, played on a bus that carries what the chip has to say, with arrivals in between: all of the data on Ok, whole chunks on Err, on this slot only |
| `Session.LoggedRead` | src/tcp.rs:77-96 | the same for a read: what was queued and what arrived is what it returned, then what is queued; other slots keep theirs; at end of file only late bytes are left and the chip has said that this slot is closed |
| `Session.LoggedConnect` | src/driver.rs:1012-1014 | a connect that returns a slot was last told by the chip that this very slot is established |
| `Session.OfferedIsTruthful` | src/driver.rs:1221-1285 | no decoder makes anything but the chip's reply of a stream that offers it, whatever precedes it, wherever it is cut, whether or not it fits |
| `Session.EveryOfferIsHeard` | src/driver.rs:1303-1345 | every stream the chip can offer to a waiting host is received, and truthfully |
| `Progress.SendCanFinish` | src/driver.rs:810-834 | a send between two exchanges that has not failed always has a continuation that succeeds, the slot gaining exactly the rest of the data |
| `Session.CarriedIsTruthful` | src/driver.rs:1347-1479 | the same for noise, reply and cut given explicitly |
| `Session.PullNeverTooSmall` | src/driver.rs:1261-1264 | a read's own reply is delivered, or is a bus error or timeout |
| `Shared.ReachableOk` | src/nal.rs:137-146 | the invariant of the shared system over all interleavings of any number of tasks |
| `Shared.WriteStreamIntegrity` | src/nal.rs:204-208 | until a write on a slot has failed, the chip accepted for it the written buffers in order, each in one piece, then whole chunks of the write holding the lock, even if that one has just failed |
| `Shared.FailedWriteLeavesChunks` | src/driver.rs:829-832 | a failed write left whole chunks from the front of its buffer, none twice |
| `Shared.ReadStreamIntegrity` | src/nal.rs:172-191 | until a read on a slot fails, what its peer sent is what reads returned, then what is under way, then what is queued |
| `Shared.ExchangeAtomicity` | src/nal.rs:117-133 | while the lock holder waits, the last bytes on the bus were its own request, byte for byte, and the pending reply answers what they decode to: that request itself if its lengths fit their prefixes |
| `Shared.ReceivesOwnReply` | src/nal.rs:117-133 | whatever a task receives is the chip's answer to the bytes that task clocked out last, with no other task's bytes in between |
| `Shared.HolderUndisturbed` | src/nal.rs:243-257 | no event of another task or peer touches the lock holder's exchange, the pending reply or the accepted bytes |
| `Shared.PendingBelongsToHolder` | src/nal.rs:205-207 | in every reachable state, a pending reply belongs to a waiting lock holder unless, and only unless, the last bytes on the bus were a request the chip parsed and the host has given up on that exchange; always while no operation has failed |
| `Shared.OrphanedReply` | src/driver.rs:1120-1128 | that exception is real: a send failing in its padding leaves a reply behind a free lock |
| `Shared.EofLeavesOnlyLate` | src/nal.rs:183-187 | at end of file the unread bytes are those that arrived after the empty pull, and the chip has said of this slot that it is closed, over all interleavings |
| `Shared.ConnectedIsUp` | src/nal.rs:244-252 | a task that gets a slot was told that this very slot is established, over all interleavings |
| `Udp.DatagramAssembly` | src/driver.rs:899-910 | begin, writes and commit returning Ok send one datagram; it is the concatenation for the given address if and only if the begin's reply was the byte 1 or the packet before it was already empty and so addressed |
| `Progress.LookupCanSucceed` | src/driver.rs:669-697 | a lookup of any name up to 255 bytes can succeed with any non-zero address behind any 39 not-ready replies |
| `Progress.DatagramCanBeSent` | src/driver.rs:899-959 | from any chip, for any address and slices of at most 247 bytes, begin, writes and commit have runs that return Ok and put exactly that datagram on the wire |
| `Udp.LoggedDatagram` | src/driver.rs:899-910 | the same for the one-call send's log: the condition is on the last reply in the begin's log and the packet before the call |
| `Udp.CompletedEffect` | src/driver.rs:717-761 | a run that returned Ok took effect exactly if its last reply was the byte 1, and only a begin returns Ok otherwise |
| `Progress.RefusedBegin` | src/driver.rs:728-734 | a begin that the chip refuses can return Ok and change nothing |
| `Progress.MisdirectedDatagram` | src/driver.rs:899-910 | so begin, write and commit can all return Ok and put a different datagram on the wire |

## Left out

- Real time: timers, the wait for ACK to go high, and cancellation of dropped futures. Sleeps are yield points; only the one between a read's polls releases the lock and is logged.
- `Sockets.NinaTcpSocket.Read`: the source polls for ever; the method is watched for a given number of polls and reports that it is still polling. Nothing is claimed about termination.
- `Shared.ReachableOk`: the mutex and its tasks are a transition system on values, not Dafny classes, so aliasing of the shared chip object is not modelled; reads there have a non-empty buffer.
- `Shared.ExchangeAtomicity`: fairness of the lock and progress of waiting tasks are not modelled.
- `Session.SendEndToEnd`: a slot's accepted bytes are accumulated over all connections that used the slot number; the chip's reset of a slot on close is not modelled, and a slot freed by a state query is a state change of the network like any other.
- `Driver.Nina.Establish`: one method for the three copies of the connect sequence in the source, which differ in mode, poll count and name.
- `Driver.Nina.DeselectChip`: a failing pin leaves CS low as in the source; what a chip does with a window that never ends is not modelled.
- Reset and boot sequence, association with access points, scanning itself, server-side accept, UDP bind, ping, GPIO passthrough and the other single-exchange queries: they add no new kind of exchange.
- SPI, GPIO and async traits, error formatting, the example program.

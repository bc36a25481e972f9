# Verified models of the cifX Linux driver's protocols and algorithms

The repository is the Linux driver for Hilscher netX/cifX fieldbus devices with its tools. This
project models the parts in which most of its state and arithmetic lives and proves what they are for:

- **The netXtransport marshaller** (`Frame`, `Marshaller*`, `Connector.dfy`). A byte-stream scanner finds
  a cookie, collects a header and a payload, checks the CRC-16, acknowledges, answers keep-alive and
  query packets and hands requests to transport handlers. `Marshaller` says what each operation does to a
  connector; class `Connector` holds the fields as the source updates them, and each of its methods is
  proved to do exactly that. The laws are about whole byte streams and whole runs: the scanner follows a
  parser of streams through any cutting into calls (`MarshallerStream`, `MarshallerCalls`), the cutting
  itself matters exactly if a header is refused (`MarshallerScan`), what the transmit side frames is read
  back (`MarshallerLaws`), headers are judged by the numbers of the protocol (`MarshallerKinds`), keep-alive identifiers are echoed (`MarshallerKeepAlive`), no buffer is duplicated (`MarshallerBuffers`), and the buffers that get lost are
  exactly those of refused answers (`MarshallerAnswers`).
- **Checksums and digests** (`Crc16`, `Crc32`, `Md5`, `Md5Laws`). Each fast form is proved equal to a simple
  one, for every input: the shift trick and the table to bit-serial division, streaming MD5 to RFC 1321,
  sections 3.1 to 3.5. Both CRCs are proved to detect every burst no longer than their width. The definitions
  themselves are held to their check values, MD5's parts to what the standard says of their bits and bytes.
- **Serial access to dual-port memory** (`SerialDpm`). The chunked SPI commands are proved against a
  slave that is modelled byte by byte: they read and write plain memory.
- **Two concurrent protocols**, as step systems over all interleavings: the send window of the virtual
  Ethernet device (`SendWindow`) and the auto-reset event (`OsEvent`).
- **The download hook** (`DownloadHook`, `DownloadLaws`, `DownloadNames`, `HookedChannel`), which puts a file together from
  packets it watches.
- **The AX99100 SPI engine** (`SpiFifo`), which moves a transfer of any length through eight registers, one
  burst per interrupt.

What lies outside is a parameter: what a connector does with a buffer (sends at once, keeps it, refuses it),
when the request callback runs the main function, what a handler answers, the tick counter, what a device
answers, the order in which threads run. `dafny verify dfyconfig.toml` checks everything.

## Where the code differs from what one would expect

- A refused header is not consumed: the bytes of it that came in the same call are scanned again
  (`HilMarshaller.c:746-759` leaves `pbData` alone). So the result depends on the cutting of the stream once
  a header is refused. `MarshallerScan.ChunkIndependenceExactly` and `MarshallerLaws.CutsShowExactly` say
  exactly when, `MarshallerLaws.ChunkingMattersAfterRefusal` that every refused header shows it, and
  `MarshallerCalls.StreamTrace` what the code does then.
- The documentation of `CalculateCRC16` says that the result is inverted; for an empty buffer the code
  returns 0xFFFF without inverting. `Crc16.Checksum` follows the code.
- A frame whose CRC happens to be zero is not protected, because zero stands for "not checked";
  `MarshallerLaws.AlteredPacketNacked` is an equivalence for that reason, `MarshallerLaws.ZeroChecksum` gives
  such a payload and `MarshallerLaws.UncheckedFrameDelivered` what becomes of it.
- The receive timeout never fires in time for values from 4294967290 on, because the count of elapsed
  time wraps around, and for the two largest values it never fires at all; `MarshallerScan.TimeoutTick` is an
  equivalence, and `MarshallerScan.TimeoutExactly` gives the tick for every value.
- A keep-alive identifier of zero can be issued, and it is not echoed when it comes back, because a zero asks
  for a new one; `MarshallerKeepAlive.IssuedZero` and `MarshallerKeepAlive.EchoExactly` say exactly when. A new
  identifier can also be the last one again (`MarshallerKeepAlive.IssuedDiffers`).
- A transport handler that answers ignores a refusal by the connector, and the buffer is then lost;
  `MarshallerBuffers.ReplyGains` says so. All other paths return the buffer.
- `Read_NX50` and `Read_NX500` keep the SPI lock when the marker does not come in time, and
  `ReadModifyWrite_NX500` then waits for the lock it holds; its contract says exactly when, and how much
  it has written by then.
- `OS_WaitEvent` waits once: a waiter whose event another thread took returns with a time-out before its
  time (`OsEvent.WokenInVain`, `OsEvent.EarlyTimeout`).
- The SPI interrupt handler starts the next burst before it writes the status back. A burst that is over by
  then has its completion wiped out, and the transfer never ends; `SpiFifo.Controller.Transfer` is an
  equivalence.
- `Read_NX500` makes up for an address inside a word only in its first command, and does not announce the bytes
  it skips; `SerialDpm.ReceivedIsMemory` says exactly when what it reads is the memory, for a slave that goes on
  sending past the announced length and for one that does not.
- The download hook leaves the transaction of a refused request in its list (`DownloadLaws.RefusedLingers`),
  calls the storage callback after the last block whatever the device answers to that block, and copies blocks
  without checking that they fit; `DownloadLaws.OverrunExactly` says exactly when one does not. The
  comment in `GetDownloadModeFromFileName` names NXO for modules; the constant is `.NXM`.

## Model

| member | source | states |
|---|---|---|
| Crc16.ShiftTrickDivides | examples/tcpserver/Marshaller/HilMarshaller.c:101-105 | the five shift-and-xor statements are eight steps of long division by 0x1021, for every register and byte |
| Crc16.CalculateCRC16 | examples/tcpserver/Marshaller/HilMarshaller.c:92-111 | the loop returns the complement of the remainder of the bit-serial division from 0xFFFF on, and 0xFFFF for an empty buffer |
| Crc16.DivideLinear | examples/tcpserver/Marshaller/HilMarshaller.c:99-106 | the division is linear over exclusive or |
| Crc16.WindowKernel | examples/tcpserver/Marshaller/HilMarshaller.c:99-106 | a window of k <= 16 bits clears the register only if its low 16 - k bits are clear before; a clear register stays clear only under zeros |
| Crc16.BurstDetected | examples/tcpserver/Marshaller/HilMarshaller.c:99-106 | two messages that differ only inside 16 adjacent bits have different remainders |
| Crc16.CheckValue | examples/tcpserver/Marshaller/HilMarshaller.c:84-90 | the checksum of "123456789" is 0xD64E |
| Crc16.ZeroWitness | examples/tcpserver/Marshaller/HilMarshaller.c:92-111 | the payload 7B 30 has checksum zero |
| Crc16.AdjacentBytesDetected | examples/tcpserver/Marshaller/HilMarshaller.c:92-111 | buffers that differ only inside two adjacent bytes have different checksums |
| Crc32.TableEntry | libcifx/Toolkit/Source/Hilcrc32.c:69-123 | each of the 256 table entries is its index taken through eight steps of the reflected polynomial 0xEDB88320 |
| Crc32.TableStepDivides | libcifx/Toolkit/Source/Hilcrc32.c:138 | one table lookup is eight steps of bit-serial division, for every register and byte |
| Crc32.CreateCRC32 | libcifx/Toolkit/Source/Hilcrc32.c:132-141 | the loop computes the bit-serial form for every start value and buffer: start value and result complemented, an empty buffer left as it is |
| Crc32.CheckValue | libcifx/Toolkit/Source/Hilcrc32.c:132-141 | from 0, the CRC of "123456789" is 0xCBF43926 |
| Crc32.ContinueComposes | libcifx/Toolkit/Source/Hilcrc32.c:132-141 | continuing from the CRC of a first piece gives the CRC of the concatenation, empty pieces included |
| Crc32.BurstDetected | libcifx/Toolkit/Source/Hilcrc32.c:136-139 | two messages that differ only inside 32 adjacent bits have different remainders |
| Crc32.AdjacentBytesDetected | libcifx/Toolkit/Source/Hilcrc32.c:132-141 | buffers that differ only inside four adjacent bytes have different CRCs, from any start value |
| Md5Laws.FSelects | libcifx/Toolkit/Source/Hilmd5.c:217 | each bit of F is that of y where x has a one, that of z where it has a zero |
| Md5Laws.GSelects | libcifx/Toolkit/Source/Hilmd5.c:243 | each bit of G is that of x where z has a one, that of y where it has a zero |
| Md5Laws.HParityEven | libcifx/Toolkit/Source/Hilmd5.c:269 | a bit of H is that of z where x and y agree |
| Md5Laws.HParityOdd | libcifx/Toolkit/Source/Hilmd5.c:269 | a bit of H is the other one where they differ |
| Md5Laws.ISelects | libcifx/Toolkit/Source/Hilmd5.c:295 | a bit of I is that of y, turned over where x has a one or z a zero |
| Md5Laws.RotateTurns | libcifx/Toolkit/Source/Hilmd5.c:212 | every rotation of the rounds, as a number, is that many doublings in which the top bit comes in at the bottom |
| Md5Laws.WordNumber | libcifx/Toolkit/Source/Hilmd5.c:155-205 | a word of a block is the number of its four bytes, low byte first |
| Md5Laws.BytesOfWord | libcifx/Toolkit/Source/Hilmd5.c:394-395 | the four bytes of a digest word make up the word |
| Md5Laws.AbcDigest | libcifx/Toolkit/Source/Hilmd5.c:146-396 | the digest of "abc" is the one of section A.5 of RFC 1321, through padding, all 64 steps and output |
| Md5.Advance | libcifx/Toolkit/Source/Hilmd5.c:214-316 | a SET statement that writes the right register is the next step of the indexed loop, seen through the rotation of the register names |
| Md5.Round1 | libcifx/Toolkit/Source/Hilmd5.c:214-237 | the sixteen unrolled statements are steps 0 to 15 of RFC 1321 section 3.4 |
| Md5.Round2 | libcifx/Toolkit/Source/Hilmd5.c:240-263 | the sixteen unrolled statements are steps 16 to 31 |
| Md5.Round3 | libcifx/Toolkit/Source/Hilmd5.c:266-289 | the sixteen unrolled statements are steps 32 to 47 |
| Md5.Round4 | libcifx/Toolkit/Source/Hilmd5.c:292-315 | the sixteen unrolled statements are steps 48 to 63 |
| Md5.Process | libcifx/Toolkit/Source/Hilmd5.c:146-325 | one block is compressed as the 64-step loop of the standard does |
| Md5.CountUpdate | libcifx/Toolkit/Source/Hilmd5.c:349-352 | the carry test keeps the two count words equal to the message length in bits modulo 2^64 |
| Md5.State.constructor | libcifx/Toolkit/Source/Hilmd5.c:327-335 | the state of the empty message |
| Md5.State.UpdateCount | libcifx/Toolkit/Source/Hilmd5.c:349-352 | the count words follow the message length |
| Md5.State.Append | libcifx/Toolkit/Source/Hilmd5.c:337-373 | the state of a message becomes that of the message with the data appended: count, registers over all full blocks, partial block |
| Md5.State.Finish | libcifx/Toolkit/Source/Hilmd5.c:375-396 | the digest is that of sections 3.1 to 3.5 of RFC 1321 for the whole message |
| Md5.HashPieces | libcifx/Toolkit/Source/Hilmd5.c:327-396 | any split of any message into appends ends in the one-shot digest of the message |
| Frame.DecodeEncode | examples/tcpserver/Marshaller/HilMarshaller.c:1037-1054 | every header is read back from its own bytes |
| MarshallerConnector.Connector.constructor | examples/tcpserver/Marshaller/HilMarshaller.c:124-222 | a registered connector: the four pools with their counts, the scanner searching |
| MarshallerConnector.Connector.FreeBuffer | examples/tcpserver/Marshaller/HilMarshaller.c:267-304 | the buffer is appended to the pool of its kind, every other pool is as before, and nothing else changes |
| MarshallerConnector.Connector.ConnTxData | examples/tcpserver/Marshaller/HilMarshaller.c:1037-1054 | exactly length and CRC-16, zero without data, are stamped on the header; the buffer goes where the connector's answer sends it |
| MarshallerConnector.Connector.SendAcknowledge | examples/tcpserver/Marshaller/HilMarshaller.c:389-407 | an acknowledge with the packet's header and the state, dropped if no buffer is free, freed if refused |
| MarshallerConnector.Connector.ResetRxStateMachine | examples/tcpserver/Marshaller/HilMarshaller.c:413-433 | the current buffer is returned and the scanner searches from a clear state |
| MarshallerConnector.Connector.RunMain | examples/tcpserver/Marshaller/HilMarshaller.c:1176-1211 | the oldest pending request goes to its handler, which answers or keeps it |
| MarshallerConnector.Connector.AnswerHeld | examples/tcpserver/Marshaller/CifXTransport.c:345-353 | a handler that kept a request answers it; the result of the transmission is ignored, and a refused buffer is lost |
| MarshallerConnector.Connector.ConnTxComplete | examples/tcpserver/Marshaller/HilMarshaller.c:1063-1068 | a completed buffer is back in its pool |
| MarshallerConnector.Connector.Tick | examples/tcpserver/Marshaller/HilMarshaller.c:1151-1162 | the timeout step with 32-bit elapsed time |
| MarshallerConnector.Connector.CookieTurn | examples/tcpserver/Marshaller/HilMarshaller.c:655-690 | the cookie search over the rest of the input |
| MarshallerConnector.Connector.HeaderTurn | examples/tcpserver/Marshaller/HilMarshaller.c:692-778 | header bytes are collected; the complete header is judged, and refused without consuming its bytes |
| MarshallerConnector.Connector.DataTurn | examples/tcpserver/Marshaller/HilMarshaller.c:780-826 | payload bytes up to the announced length are taken, the rest is left |
| MarshallerConnector.Connector.CheckTurn | examples/tcpserver/Marshaller/HilMarshaller.c:828-1008 | a complete telegram is acknowledged, answered or queued as the functions of the model prescribe |
| MarshallerConnector.Connector.ConnRxData | examples/tcpserver/Marshaller/HilMarshaller.c:633-1028 | the do-switch loop terminates for every input restarts the timeout, and leaves the connector in the state byte-wise scanning with replay of refused headers leads to |
| MarshallerScan.ByteKeepsInv | examples/tcpserver/Marshaller/HilMarshaller.c:651-1024 | every byte keeps the invariant that ties scan state, offset, current buffer and timeout monitor together; a byte is refused only in a header |
| MarshallerScan.FeedKeepsInv | examples/tcpserver/Marshaller/HilMarshaller.c:633-1028 | every call keeps that invariant, refusals included |
| MarshallerScan.ChunkIndependence | examples/tcpserver/Marshaller/HilMarshaller.c:633-1028 | without refused headers, any cutting of any stream into calls ends in the state, trace included, of one call per byte |
| MarshallerScan.ChunkIndependenceExactly | examples/tcpserver/Marshaller/HilMarshaller.c:633-1028 | for every environment and stream, from a searching scanner: at no moment does the cutting into calls show, if and only if no header is refused |
| MarshallerScan.RefusedTails | examples/tcpserver/Marshaller/HilMarshaller.c:746-759 | a refused header leaves one byte in the window if its last byte came alone, two if the last two came together |
| MarshallerScan.TimeoutTick | examples/tcpserver/Marshaller/HilMarshaller.c:1151-1162 | a scanner inside a frame is reset by tick number T/10+1 and by none before, if and only if T is below 4294967290 |
| MarshallerScan.TimeoutExactly | examples/tcpserver/Marshaller/HilMarshaller.c:1151-1162 | for every 32-bit timeout and any number of ticks: reset by tick T/10+1 below 4294967290, by tick 858993459 for the next four values, never for the last two |
| MarshallerScan.ReceiveRestarts | examples/tcpserver/Marshaller/HilMarshaller.c:646 | whatever time had elapsed, after a receive call none has |
| MarshallerScan.TimeoutSinceReceive | examples/tcpserver/Marshaller/HilMarshaller.c:646 | the timeout counts from the last receive call, whatever had elapsed before it |
| MarshallerBuffers.TimeoutOverRuns | examples/tcpserver/Marshaller/HilMarshaller.c:1132-1162 | in every run: after a receive call that leaves the scanner inside a frame, and whatever else happens before the next one, it stays there until the tick due, counted from that call, and searches from then on |
| MarshallerScan.TimeoutEnds | examples/tcpserver/Marshaller/HilMarshaller.c:1132-1162 | every later tick leaves the reset scanner alone |
| MarshallerScan.IdleTicks | examples/tcpserver/Marshaller/HilMarshaller.c:1153 | no number of ticks touches a scanner that searches |
| MarshallerBuffers.ReplyGains | examples/tcpserver/Marshaller/HilMarshaller.c:1053 | an answered request gives its buffer to the pool or the connector, or it is lost if the connector refuses |
| MarshallerBuffers.CheckTelegramKeeps | examples/tcpserver/Marshaller/HilMarshaller.c:828-1008 | every branch of the telegram check keeps every buffer in one place |
| MarshallerBuffers.HeaderDoneKeeps | examples/tcpserver/Marshaller/HilMarshaller.c:720-775 | so does every outcome of a complete header, refusals included |
| MarshallerBuffers.RunKeeps | examples/tcpserver/Marshaller/HilMarshaller.c:633-1211 | every run of receives, ticks, main calls, answers and completions keeps the number of places of every buffer |
| MarshallerBuffers.Conservation | examples/tcpserver/Marshaller/HilMarshaller.c:124-357 | from registration on, after any run, every allocated buffer is in exactly one place, in the pool of its kind when free, and no other buffer exists; nothing is lost with a connector that never refuses |
| MarshallerStream.CookieMissing | examples/tcpserver/Marshaller/HilMarshaller.c:655-690 | a stream without the cookie leaves the scanner searching with its last three bytes |
| MarshallerStream.CookieFound | examples/tcpserver/Marshaller/HilMarshaller.c:655-690 | the sliding window finds the first occurrence of the cookie in the stream, wherever it lies |
| MarshallerStream.CheckTelegramTcp | examples/tcpserver/Marshaller/HilMarshaller.c:828-1008 | with the TCP connector, a complete packet causes exactly its acknowledge and then its answer, and all pools are full again |
| MarshallerStream.HeaderDoneTcp | examples/tcpserver/Marshaller/HilMarshaller.c:720-774 | a complete header waits for its payload, is ignored (acknowledge), or is refused with one BUFFEROVERFLOW_ERROR |
| MarshallerStream.ByteTrace | examples/tcpserver/Marshaller/HilMarshaller.c:633-1028 | with one call per byte the scanner causes the responses of the plain parser, and no header is refused if and only if every announced length fits |
| MarshallerCalls.CallTrace | examples/tcpserver/Marshaller/HilMarshaller.c:633-1028 | one call, wherever the scanner stands: it causes the responses the parser prescribes for held and new bytes, a refused header being scanned again from behind its cookie or from the start of the call, and holds what the parser leaves |
| MarshallerCalls.StreamTrace | examples/tcpserver/Marshaller/HilMarshaller.c:633-1028 | for every stream and every cutting of it into calls, refused headers included, the scanner causes exactly the responses the parser prescribes, in order |
| MarshallerCalls.FittingParse | examples/tcpserver/Marshaller/HilMarshaller.c:761-774 | a stream whose announced lengths fit holds the same packets however it is cut: those of the plain parser |
| MarshallerLaws.ResponseOneAck | examples/tcpserver/Marshaller/HilMarshaller.c:828-1005 | the first event of the response to a packet is its acknowledge, without data and checksum, and it holds no other |
| MarshallerLaws.OneAckPerPacket | examples/tcpserver/Marshaller/HilMarshaller.c:389-407 | for every stream and every cutting into calls: one acknowledge, with the matching state, per packet received completely or refused at its header, in packet order, none for incoming acknowledges |
| MarshallerLaws.ParsePackets | examples/tcpserver/Marshaller/HilMarshaller.c:1037-1054 | framed messages are parsed back exactly, also after garbage whose first cookie is the real one |
| MarshallerLaws.RoundTrip | examples/tcpserver/Marshaller/HilMarshaller.c:633-1054 | every list of framed messages, received in any chunks after such garbage, is acknowledged, delivered byte for byte and answered, in order |
| MarshallerLaws.AlteredPacketNacked | examples/tcpserver/Marshaller/HilMarshaller.c:833-839 | a packet altered inside two adjacent payload bytes causes only a CHECKSUM_ERROR, if and only if its checksum is not zero |
| MarshallerLaws.AlteredFrameRejected | examples/tcpserver/Marshaller/HilMarshaller.c:633-1028 | the same on the line: in any chunks, the altered frame is only nacked and intact frames behind it are delivered |
| MarshallerLaws.ZeroChecksum | examples/tcpserver/Marshaller/HilMarshaller.c:833-836 | of the two-byte payloads exactly 7B 30 has checksum zero |
| MarshallerLaws.UncheckedFrameDelivered | examples/tcpserver/Marshaller/HilMarshaller.c:833-1001 | a frame whose checksum is zero, with any payload of its length in place of its own, is acknowledged OK, dispatched as it arrived and answered |
| MarshallerLaws.SentAnswers | examples/tcpserver/Marshaller/HilMarshaller.c:389-407 | for every stream and cutting: one group of events for each packet, in order, and every packet sent in it carries that packet's device, channel, sequence, transaction and reserved field, its own length and CRC or zero, and as an answer the packet's type and state |
| MarshallerLaws.RegisteredReady | examples/tcpserver/Marshaller/HilMarshaller.c:124-222 | a freshly registered connector meets the precondition of the stream laws |
| MarshallerLaws.NeverOutOfBuffers | examples/tcpserver/tcp_connector.c:30-46 | in the TCP server configuration no run ever sends RESOURCE_ERROR, and whenever no payload is under way every buffer is in its pool |
| MarshallerLaws.RefusedWhole | examples/tcpserver/Marshaller/HilMarshaller.c:752-759 | a refused header in one call is scanned again from behind its cookie |
| MarshallerLaws.RefusedBytes | examples/tcpserver/Marshaller/HilMarshaller.c:752-759 | the same header byte by byte leaves the scanner searching with its last byte |
| MarshallerLaws.CutsShowExactly | examples/tcpserver/Marshaller/HilMarshaller.c:633-1028 | told from the stream alone: at no moment does the cutting into calls show, if and only if every announced length fits its buffer |
| MarshallerLaws.ChunkingMattersAfterRefusal | examples/tcpserver/Marshaller/HilMarshaller.c:746-759 | every header that is too long ends differently in one call and byte by byte |
| MarshallerLaws.ChunkingMatters | examples/tcpserver/Marshaller/HilMarshaller.c:746-759 | such a header exists for every receive buffer size below 2^32-1 |
| MarshallerKinds.HeaderOutcome | examples/tcpserver/Marshaller/HilMarshaller.c:720-774 | for any connector that takes the acknowledge: type 0x8000 is ignored; no free buffer in the pool for the type is nacked with 0x17; more than 4 bytes of keep-alive or than the buffer size of anything else with 0x16; any other takes the first buffer of its pool |
| MarshallerKinds.RefusedSilently | examples/tcpserver/Marshaller/HilMarshaller.c:389-407 | without a free acknowledge buffer a refusal sends nothing |
| MarshallerKinds.BuffersRight | examples/tcpserver/Marshaller/HilMarshaller.c:733-744 | in every run a keep-alive payload is received into a keep-alive buffer and any other into a receive buffer |
| MarshallerKinds.VerdictCodes | examples/tcpserver/Marshaller/HilMarshaller.c:833-980 | the state code of every acknowledge for a complete packet, by its type |
| MarshallerKinds.AckBytes | examples/tcpserver/Marshaller/HilMarshaller.c:389-407 | an acknowledge, byte for byte |
| MarshallerAnswers.LostExactly | examples/tcpserver/Marshaller/HilMarshaller.c:1176-1211 | after any run with any connector, exactly as many buffers are lost as dispatched requests are neither held by a handler nor answered on the line; nothing else loses one |
| MarshallerAnswers.ReplyCounts | examples/tcpserver/Marshaller/HilMarshaller.c:1053 | a handler's answer is either taken by the connector or loses its buffer |
| MarshallerKeepAlive.KeepAliveEcho | examples/tcpserver/Marshaller/HilMarshaller.c:911-970 | for every stream in any chunks: until another identifier is asked for, a packet with the issued one is acknowledged and sent back byte for byte, one with any other but zero is nacked, and a zero is answered with a new one |
| MarshallerKeepAlive.EchoExactly | examples/tcpserver/Marshaller/HilMarshaller.c:922-951 | an issued identifier is echoed if and only if it is not zero, or zero is issued again |
| MarshallerKeepAlive.IssuedZero | examples/tcpserver/Marshaller/HilMarshaller.c:925-936 | the exact condition on last identifier and tick counter under which zero is issued |
| MarshallerKeepAlive.IssuedDiffers | examples/tcpserver/Marshaller/HilMarshaller.c:925-936 | a new identifier differs from the last one if and only if the tick counter is not zero, or the last one is neither zero nor all ones |
| SerialDpm.ReadNX50 | libcifx/Toolkit/SerialDPM/SerialDPMInterface.c:57-107 | the buffer holds exactly the memory and the lock is released if and only if the waiting bytes and markers of all chunks are at most 100 |
| SerialDpm.ChunkCount | libcifx/Toolkit/SerialDPM/SerialDPMInterface.c:66-71 | one command for every 124 bytes begun |
| SerialDpm.ReadLimit | libcifx/Toolkit/SerialDPM/SerialDPMInterface.c:61-93 | hence no call reads more than 12400 bytes |
| SerialDpm.WriteNX50 | libcifx/Toolkit/SerialDPM/SerialDPMInterface.c:117-147 | exactly the addressed bytes change, through the chunk commands in order |
| SerialDpm.WriteThenRead | libcifx/Toolkit/SerialDPM/SerialDPMInterface.c:57-147 | a read that succeeds gives back what was written |
| SerialDpm.ReadNX500 | libcifx/Toolkit/SerialDPM/SerialDPMInterface.c:157-222 | what is received, for every address and length and either kind of slave, under the same budget |
| SerialDpm.ReceivedIsMemory | libcifx/Toolkit/SerialDPM/SerialDPMInterface.c:164-217 | that is the memory, whatever it holds, if and only if the address is a word boundary, or nothing is read, or one command is enough and, with a slave that sends zeros past the announced length, announces the skipped bytes as well |
| SerialDpm.AlignedList | libcifx/Toolkit/SerialDPM/SerialDPMInterface.c:255-262 | an aligned write consists of aligned commands |
| SerialDpm.ModifyWord | libcifx/Toolkit/SerialDPM/SerialDPMInterface.c:247-252 | some bytes of one word change, by one aligned command; if and only if the word cannot be read in time, nothing changes and the function blocks |
| SerialDpm.ReadModifyWriteNX500 | libcifx/Toolkit/SerialDPM/SerialDPMInterface.c:232-276 | a plain write for every address and length: exactly those bytes change, and every write command is word aligned and a multiple of a word; it blocks if and only if a word it must read does not come in time, with exactly the bytes before that word written |
| SendWindow.StepKeepsInv | libcifx/netx_tap/netx_tap.c:647-760 | every step of sender and receiver keeps the thread and the window invariant |
| SendWindow.OneSender | libcifx/netx_tap/netx_tap.c:919-983 | in every interleaving at most one sender is alive, and while one is, the stop flag is up exactly during the join |
| SendWindow.GuardSeesOutstanding | libcifx/netx_tap/netx_tap.c:699-724 | whenever a live sender is not between put and increment, as when it evaluates the guard, the counter is the frames accepted minus the confirmations handled |
| SendWindow.WindowHolds | libcifx/netx_tap/netx_tap.c:697-725 | never more than the window plus one frames are outstanding, for every window size and retry count |
| SendWindow.PutHasRoom | libcifx/netx_tap/netx_tap.c:705-725 | at every put, retries included, at most the window is outstanding, and at most one more put than the configured retries is made for a frame |
| SendWindow.WindowFills | libcifx/netx_tap/netx_tap.c:697-725 | the bound is reached, for every configuration |
| SendWindow.CounterWraps | libcifx/netx_tap/netx_tap.c:805-810 | the counter does reach 0xFFFFFFFF, with nothing outstanding |
| SendWindow.ExitExactly | libcifx/netx_tap/netx_tap.c:680-756 | exactly when a sender ends: the stop flag seen after a frame or at the bottom of the loop, or a failed wait |
| SendWindow.WaitsForFrame | libcifx/netx_tap/netx_tap.c:673-680 | a sender waits for a frame exactly after it saw the link up, or the stop flag while the link is down |
| SendWindow.LinkUpStarts | libcifx/netx_tap/netx_tap.c:936-951 | the link coming up clears the flag and starts a sender, if one can be created |
| SendWindow.LinkDownStops | libcifx/netx_tap/netx_tap.c:968-983 | the link going down raises the flag and leads to the join |
| SendWindow.RetriesDecide | libcifx/netx_tap/netx_tap.c:717-725 | a full mailbox, and only that, makes the sender hand the frame over again; within the retries the first other answer decides, and an accepted frame is counted once |
| SendWindow.RetriesEnd | libcifx/netx_tap/netx_tap.c:717-725 | if every attempt finds the mailbox full, the frame is given up after the last one and not before |
| SendWindow.AcceptedOnce | libcifx/netx_tap/netx_tap.c:691-742 | in every run at most as many frames are accepted as were read with data in them |
| SendWindow.StopEnds | libcifx/netx_tap/netx_tap.c:977-983 | while the receiver is in the join the sender exits after at most 3 * retries + 13 of its own steps, and the join returns exactly then |
| OsEvent.SetsConserved | libcifx/os_linux.c:1093-1207 | in every interleaving, effective sets equal signalled returns plus effective resets plus the flag |
| OsEvent.ConsumedOnce | libcifx/os_linux.c:1196-1201 | what consumes a set is the entry directly after it, and nothing else consumes anything |
| OsEvent.WaitersCounted | libcifx/os_linux.c:1186-1194 | the count of waiters is the number of threads inside the wait |
| OsEvent.NoLostWakeup | libcifx/os_linux.c:1106-1117 | while the event is set and a thread is blocked, another waiter is already woken, and the first woken one to run returns signalled |
| OsEvent.WokenInVain | libcifx/os_linux.c:1186-1203 | a waiter woken by a set returns with a time-out if and only if the last thing that happened to the event is not a set; the set that woke it was then taken by another thread or reset |
| OsEvent.EarlyTimeout | libcifx/os_linux.c:1186-1203 | a run in which that happens |
| OsEvent.SetThenWait | libcifx/os_linux.c:1093-1204 | after a set one wait is signalled at once and the next one blocks |
| OsEvent.ResetThenWait | libcifx/os_linux.c:1127-1141 | after a reset the event is down, nobody was woken by it, and the next wait blocks |
| OsEvent.OsEventObject.SetEvent | libcifx/os_linux.c:1093-1121 | the set step of the step system |
| OsEvent.OsEventObject.ResetEvent | libcifx/os_linux.c:1127-1141 | the reset step |
| OsEvent.OsEventObject.WaitEvent | libcifx/os_linux.c:1184-1191 | the wait up to the condition variable, or to its end |
| OsEvent.OsEventObject.WaitResumed | libcifx/os_linux.c:1193-1204 | the wait from the condition variable on |
| HookedChannel.Channel.GetTxnRsrc | examples/tcpserver/cifx_download_hook.c:419-437 | the position of a handle's newest transaction |
| HookedChannel.Channel.RemoveTxnRsrc | examples/tcpserver/cifx_download_hook.c:326-361 | the newest transaction of the handle is unlinked, all others stay in order |
| HookedChannel.Channel.CreateTxnRsrc | examples/tcpserver/cifx_download_hook.c:375-412 | a fresh transaction in front of the list |
| HookedChannel.Channel.Receive | examples/tcpserver/cifx_download_hook.c:648-682 | a request during the transfer copies its block, ends or fails the transaction |
| HookedChannel.Channel.PutPacket | examples/tcpserver/cifx_download_hook.c:569-704 | the put function of the model, with the driver's result or success if the hook took the packet |
| HookedChannel.Channel.GetPacket | examples/tcpserver/cifx_download_hook.c:482-559 | the get function of the model, with the driver's, the hook's or the callback's result |
| DownloadLaws.Independent | examples/tcpserver/cifx_download_hook.c:326-704 | in every interleaving of calls on any handles, a handle's transactions, files and packets are what its own calls alone make of them |
| DownloadLaws.Exchanged | examples/tcpserver/cifx_download_hook.c:482-704 | one request of a transfer and the fetching of its answer, with or without interception |
| DownloadLaws.TransferCompletes | examples/tcpserver/cifx_download_hook.c:542-672 | from any block on, sending the rest of the file stores it |
| DownloadLaws.Reassembled | examples/tcpserver/cifx_download_hook.c:482-704 | for every file, host block size and device block size: the callback is called once with exactly the bytes, the list of transactions is as before, and the packets reach the device in order or, if intercepted, not at all and all are confirmed |
| DownloadLaws.ReassembledAmongOthers | examples/tcpserver/cifx_download_hook.c:326-704 | the same in any interleaving with calls on other handles |
| DownloadLaws.DownloadOrderly | examples/tcpserver/cifx_download_hook.c:653-668 | the host in question never makes the hook copy outside the file buffer or touch an ended transaction |
| DownloadLaws.RefusedLingers | examples/tcpserver/cifx_download_hook.c:526-540 | a refused request leaves its transaction and stores nothing |
| DownloadLaws.OverrunExactly | examples/tcpserver/cifx_download_hook.c:653-668 | for every host, in any interleaving: a block is copied past the end of the file buffer if and only if the full blocks before it times the negotiated size, plus the block itself, exceed the announced length |
| DownloadLaws.RunSized | examples/tcpserver/cifx_download_hook.c:385-404 | for every host and run: a transaction whose request is not confirmed has a buffer of the announced length with nothing in it |
| DownloadNames.KindExactly | examples/tcpserver/cifx_download_hook.c:135-165 | the kind of every name: .nxf, .nxm, .nxd and .xml in every spelling behind at least one character, and nothing else |
| DownloadNames.FirmwareCaptured | examples/tcpserver/cifx_download_hook.c:569-704 | a .nxf for a device without a file system: nothing reaches the device, the host gets its own block size and its own checksums confirmed, and the file is stored as firmware |
| DownloadNames.OthersPassed | examples/tcpserver/cifx_download_hook.c:569-704 | a .nxd, .xml or .nxm, or a .nxf for a device with a file system: every packet goes to the device, every answer to the host, and the file is stored with its kind |
| DownloadNames.PlainFilesPass | examples/tcpserver/cifx_download_hook.c:576-583 | any other packet passes both ways and leaves the hook as it was |
| DownloadNames.OutOfSequence | examples/tcpserver/cifx_download_hook.c:677-681 | a new request during a captured transfer is confirmed with 0xC000000F and ends the transaction |
| DownloadNames.AbortCaptured | examples/tcpserver/cifx_download_hook.c:674-676 | an abort of a captured transfer is confirmed without an error and ends the transaction |
| DownloadNames.RestartReplaces | examples/tcpserver/cifx_download_hook.c:594-602 | a request on an ended transaction removes it unstored and opens a new one |
| DownloadNames.SequenceCodes | examples/tcpserver/cifx_download_hook.c:653-672 | what each sequence code does with a block |
| DownloadNames.ShortenedName | examples/tcpserver/cifx_download_hook.c:405 | the name kept is the first sixteen characters |
| DownloadLaws.AbortedNeverStored | examples/tcpserver/cifx_download_hook.c:551-554 | a transfer aborted after any number of blocks but the last is never stored and leaves no transaction |
| SpiFifo.AnswersSplit | cifx_m2/ax99100-pci-spi.c:323-338 | what a device answers to bursts sent one after the other is what it answers to all at once |
| SpiFifo.UnsentKept | cifx_m2/ax99100-pci-spi.c:333-337 | storing answers never overwrites a byte still to be sent, even if both buffers are one |
| SpiFifo.Controller.ReadFifo | cifx_m2/ax99100-pci-spi.c:323-338 | exactly the burst in flight is collected, behind what was collected before |
| SpiFifo.Controller.WriteFifo | cifx_m2/ax99100-pci-spi.c:345-377 | the next burst of at most eight bytes is loaded and started, or the transfer is finalised once if nothing is left |
| SpiFifo.Controller.TransferOne | cifx_m2/ax99100-pci-spi.c:455-466 | the first burst is in flight, or an empty transfer is finalised at once |
| SpiFifo.Controller.Isr | cifx_m2/ax99100-pci-spi.c:483-508 | from one burst in flight to the next, or to the end, with the status read first and written back last; a burst that is over before the write-back has its completion wiped out; no effect without a completion or a transfer |
| SpiFifo.Controller.Transfer | cifx_m2/ax99100-pci-spi.c:323-508 | if and only if no completion is wiped out, the transfer is finalised, once, after exactly ceil(n/8) interrupts, the wire having carried the transmit buffer or zeros and the receive buffer holding the answers in order; otherwise it stops for good at the first one that is |

## Left out

- Several connectors on one marshaller: one connector with its pending queue is modelled.
- Buffers of the marshaller as memory: a buffer is a value with a number, so the answer a handler writes into its request's buffer is a parameter, and aliasing inside a buffer is not captured.
- The layout of the answer to a query-server packet is a parameter; how keep-alive identifiers depend on the tick counter is kept (zero included), the counter is a parameter.
- Chunks so long that the sum of chunk length and data offset exceeds 32 bits (line 799 of `HilMarshaller.c`) are taken at their mathematical value.
- HilMarshallerUnregisterConnector, HilMarshallerStop, HilMarshallerSetMode, transport registration and failing allocation: setup and teardown around the protocol.
- Timer ticks in the middle of a receive call: ticks fall between calls.
- Md5.State.Append: takes lengths as natural numbers, so `nbytes << 3` overflowing a signed long, from 2^60 bytes on, is not modelled; the aligned-access and big-endian variants of md5_process are not modelled.
- Crc16 and Crc32 take the buffer as a sequence; a null pointer counts as empty.
- SerialDpm: the bytes a master sends while it reads are not looked at by the slave, and the length of a write command is only logged; the netX10 and netX51 variants (one command for the whole transfer) would add easy members.
- SerialDpm: the SPI lock is taken to be one its holder cannot take twice; the repository leaves it to the platform.
- SerialDpm.WriteThenRead: combines two functions of the source to state their law; no function of the source does both.
- SendWindow: frame padding, statistics, TAP and netlink calls and device deletion are left out; a failing pthread_create is taken to leave the thread handle as it was.
- OsEvent: a failing clock or time calculation at the start of OS_WaitEvent, and deletion of an event in use.
- HookedChannel.Channel.PutPacket: requires that a data block fits the announced file and that an ended transaction is fetched or followed by a request that opens a new one; the source demands this of its host without checking it. Exactly when a block does not fit is stated by DownloadLaws.OverrunExactly.
- HookedChannel.Channel.Receive: requires that the data block fits the announced file, as PutPacket does; what a copy past the end of the file buffer overwrites is not modelled.
- Download hook: xDownloadHook_GetMBXState, a receive buffer too small for the hook's own confirmation, installation and removal; the queries for device type and board are parameters; a file name of sixteen or more characters is kept as its first sixteen, without the missing terminator.
- SpiFifo: the scatter-gather DMA branch, register set-up, chip select and the transceiver error interrupt, which the source only logs; a one written to a bit of the status register is taken to clear it.
- Scanning of sysfs, configuration files, PCI probing, the packet dispatch onto driver functions in `CifXTransport.c`, sockets, the GPIO driver and `libsdpm.c`: plumbing or simpler copies of what is modelled.

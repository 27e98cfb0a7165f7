# Verified model of a TFTP server

The server answers TFTP read and write requests over UDP. It keeps a list of running
sessions; each session parses one request, opens a file and then goes through a state
machine that sends or receives the file in numbered blocks, with 16-bit block numbers,
negotiated options, windows, timeouts and retransmissions, in one packet buffer that is
reused for everything it sends and receives.

The project models that logic in Dafny and proves what it does, and exactly when it
does what the protocol promises. `dafny verify dfyconfig.toml` covers all files.

| file | content |
|---|---|
| `Octets.dfy` | bytes, fixed-width integers, decimals, zero-ended texts |
| `PacketBuffer.dfy` | the packet buffer and its append-only encoder, as a class |
| `Requests.dfy` | request parser and option acknowledgement, as functions and as a class |
| `DataFile.dfy` | blocks of a file; the file stream, as functions and as a class |
| `SessionModel.dfy` | the session state machine: one step as a function of state and event |
| `SessionLaws.dfy` | invariants of every step and every run of a session |
| `BlockSteps.dfy`, `Channels.dfy` | what a step does to a block; channels that lose and duplicate |
| `WriteProtocol.dfy`, `WriteRuns.dfy`, `WriteRecovery.dfy`, `WriteRetries.dfy` | a write session with a client over a faulty network: safety, particular runs, from where it can be completed, and what holds however often the session retransmits |
| `ReadProtocol.dfy`, `ReadRuns.dfy`, `ReadRecovery.dfy`, `ReadRetries.dfy` | the same for a read session |
| `Windows.dfy` | windows above one |
| `Datagrams.dfy` | requests, transfers and errors in the bytes the client sends and gets |
| `Termination.dfy` | retransmission limit and silent clients |
| `NonInterference.dfy` | packets that are not for the session |
| `Exceptions.dfy` | when an exception leaves a session |
| `SessionRun.dfy` | the session as a class with a main loop, proved to refine the state machine |
| `Server.dfy` | the session list and the main loop of the server, as functions and as a class |

The environment of a session is a sequence of events: in each turn, what there is to
receive and whether the timer has expired. All results about runs hold for every such
sequence, or for every schedule of the client, the two channels and strangers in the two
protocol modules. The peers in `WriteProtocol` and `ReadProtocol` follow RFC 1350 and
RFC 2347; everything the network does to their packets is arbitrary loss, duplication and
delay, and the number of blocks is unbounded, so the 16-bit numbers wrap any number of
times.

`Datagrams` ties the model to the bytes on the wire: it starts from the bytes of a request
and states block sizes, windows and errors in the numbers and texts the client gave or
gets, without the session's own accessors.

Where the code does not do what the protocol documents promise, the model follows the
code, and the exact condition is proved:

- A write session that times out acknowledges the block it is still waiting for. Writes
  can be relied upon exactly when the retransmission limit is 0
  (`WriteRuns.ReliableExactly`); a run that loses a file is `WriteRuns.LostWithoutTrace`.
- A read session with options that times out before the first acknowledgement sends a
  block 0 of stale bytes, and one that times out at a short last block sends what the
  buffer then holds, which a stranger can have written. Reads can be relied upon exactly
  with a limit of 0 (`ReadRuns.ReliableExactly`), and without strangers also without
  options (`ReadRuns.ReliableAmongFriends`); runs that go wrong are `ReadRuns.WrongByte` and
  `ReadRuns.StrangersByte`.
- Behind the first wrap of the block numbers a duplicated packet breaks a transfer off:
  for reads exactly from 65536 blocks on (`ReadRetries.BrokenOffEverExactly`), for writes
  too as long as the session does not retransmit (`WriteRuns.BrokenOffExactly`); with its
  retransmissions a write can break off from two blocks on
  (`WriteRetries.BrokenOffEverExactly`). Some lost packets cannot be made good
  (`WriteRecovery.RecoverableExactly`, `ReadRetries.CompletableExactly`).
- Once it has sent the last block, a read session takes any acknowledgement it accepts as
  one for that block (`ReadRetries.ConclusionEverExactly`).
- RFC 7440 has the last block of a windowed write acknowledged; the session does so
  exactly when that block closes a window (`Windows.LastBlockAckedExactly`). A lost block
  inside a window is acknowledged with the rest: it reads as zeros, or, where the numbers
  wrap, the next block overwrites an older one or ends the session in an exception
  (`Windows.SkippedBlock`). Windowed reads never leave a full block that does not close a
  window (`Windows.MovesOnExactly`).
- The retransmission counter has 16 bits, so a limit of 65535 is no limit
  (`Termination.SilentEndExactly`).
- A strange packet is ignored, but its bytes stay in the buffer; which read requests that
  can matter to is `NonInterference.ReadsUndisturbedExactly`. A request that ends with its
  filename takes its mode from an earlier packet (`Requests.ConfinedExactly`).
- A failed receive asks for a transition that the table refuses from data_rx and from
  ack_rx, so the ERROR packet is not sent (`SessionLaws.StepFollowsTable`,
  `SessionLaws.ErrorOrigin`).
- Exceptions are not caught: one out of the parser leaves the main loop of the server
  (`Server.AdmitBreaksExactly`), and one out of a session, which runs as the body of a
  thread, ends the whole process (`Exceptions.CrashPossibleExactly`,
  `Server.CrashEndsServer`). For that no malformed packet is needed: in a windowed write
  the loss of one packet is enough (`Windows.LossCrashesExactly`), but in a write with a
  window of one nothing the network does is (`WriteRetries.LockStepNeverCrashes`).

## Model

| member | source | states |
|---|---|---|
| `PacketBuffer.IntegerInBuffer` | source/tftpSmBuf.h:228-328 | setting and getting an integer are inverse in both byte orders, for every buffer, offset, width 1, 2, 4 or 8 and every value of the signed or unsigned type; no other byte changes |
| `PacketBuffer.EndiannessIsReversal` | source/tftpSmBuf.h:228-262 | a big-endian read is the little-endian read of the same bytes reversed |
| `PacketBuffer.StringInBuffer` | source/tftpSmBuf.cpp:55-96 | a text stored with a zero end reads back as the text up to its first NUL, with or without a length limit, whatever else the buffer holds |
| `PacketBuffer.GetString` | source/tftpSmBuf.cpp:55-66 | a string that is returned lies inside the buffer, also when the length given wraps around |
| `PacketBuffer.AppendOnly` | source/tftpSmBufEx.h:138-185 | over any history of pushes the bytes already there stay, the new bytes are exactly the encodings of the accepted items in order, and success is reported exactly when every item was accepted |
| `PacketBuffer.PushFits` | source/tftpSmBufEx.h:138-185 | for numbers and zero-ended NUL-free texts a push succeeds if and only if all encodings fit, and the content then grows by all of them |
| `PacketBuffer.SmBufEx.SetBe` | source/tftpSmBuf.h:266-293 | writes the big-endian bytes at the offset and nothing else; refused, with nothing written, exactly when the offset check fails |
| `PacketBuffer.SmBufEx.SetLe` | source/tftpSmBuf.h:297-324 | the same in little-endian order |
| `PacketBuffer.SmBufEx.GetBe` | source/tftpSmBuf.h:228-243 | the loop over the bytes gives the value that IntegerInBuffer reads back, or the exception exactly when the offset check fails |
| `PacketBuffer.SmBufEx.GetLe` | source/tftpSmBuf.h:247-262 | the same from the other end |
| `PacketBuffer.SmBufEx.FetchString` | source/tftpSmBuf.cpp:55-66 | the search finds the first NUL of the window: the text is the bytes of the buffer at the offset, free of NULs, as StringInBuffer reads them back, or one of the two failures |
| `PacketBuffer.SmBufEx.SetString` | source/tftpSmBuf.cpp:70-96 | writes the text up to its first NUL and the closing NUL, and reports that many bytes; nothing is written when the offset is refused |
| `PacketBuffer.SmBufEx.EqvString` | source/tftpSmBuf.cpp:100-116 | true exactly when storing the text there would change nothing |
| `PacketBuffer.SmBufEx.DataSizeReset` | source/tftpSmBufEx.cpp:105-113 | sets the content size, or refuses one beyond the buffer and keeps the old |
| `PacketBuffer.SmBufEx.PushItem` | source/tftpSmBufEx.h:138-173 | an item is written, refused or thrown as the two size tests decide; the content grows by its encoding exactly when it is written, and bytes behind the content stay |
| `PacketBuffer.SmBufEx.PushData` | source/tftpSmBufEx.h:177-185 | the fold over the items agrees with the encoder that AppendOnly and PushFits are about; bytes behind the content stay |
| `Requests.ParseRoundTrip` | source/tftpOptions.cpp:122-239 | parsing a request built from any opcode, filename, mode and option pairs gives back exactly these, with the last all-digit value for every known option and the default for the others, whatever bytes follow the packet in the buffer |
| `Requests.OackRoundTrip` | source/tftpSession.cpp:294-332 | running the option loop over the acknowledgement of any parsed request recovers every flag and value of that request, whatever stale bytes follow |
| `Requests.ReplyLength` | source/tftpSession.cpp:294-332 | a reply is never emptied by the size test at its end and always fits the buffer |
| `Requests.ParserStaysInside` | source/tftpOptions.cpp:122-239 | a confined packet parses to the same outcome whatever stale bytes follow it, with every read inside the packet |
| `Requests.ConfinedExactly` | source/tftpOptions.cpp:150-168 | in a buffer of the server's size the outcome depends on the packet alone, and no read leaves it, if and only if a packet with a request opcode is longer than that opcode and its filename is empty or is followed, after its NUL, by more bytes of the packet |
| `Requests.ModeFromStale` | source/tftpOptions.cpp:165-188 | a packet that ends with the NUL of its filename takes its mode from whatever follows it in the buffer, and throws when nothing does |
| `Requests.StaleModeChosen` | source/tftpOptions.cpp:165-188 | so any text an earlier packet left there becomes the mode |
| `Requests.OpenNameFaults` | source/tftpOptions.cpp:150-168 | a filename without a NUL makes the parser read backwards, or throw at the end of the buffer |
| `Requests.ThrowsExactly` | source/tftpOptions.cpp:122-239 | whether a request throws in a buffer of the server's size is a matter of the packet alone: a filename without a NUL, a packet as large as the buffer that ends with its filename, or an option value beyond `int` |
| `Requests.TakenExactly` | source/tftpOptions.cpp:122-239 | a packet in a buffer of the server's size is taken for a request if and only if its first bytes are 0 and 1 or 0 and 2, it has a filename, a mode follows it (behind the packet, if that ends with the filename), and it does not throw |
| `Datagrams.RequestMeans` | source/tftpOptions.cpp:122-239 | what a request composed of any texts means, in literal names and defaults: type, filename, mode up to case, and each of blksize, timeout, tsize and windowsize as last given or 512, 10, 0 and 1 |
| `Datagrams.CountsFor` | source/tftpOptions.cpp:196-220 | a pair counts for an option exactly if its name is the option's, in any mixture of cases, and its value is digits only |
| `Datagrams.RequestThrowsExactly` | source/tftpOptions.cpp:213-215 | a composed request throws if and only if some pair has a value of digits beyond 2147483647 |
| `Datagrams.OptionsConfirmed` | source/tftpSession.cpp:294-332 | the option acknowledgement is opcode 6 and each option the request set, once, with the value it asked for |
| `Requests.ParseSound` | source/tftpOptions.cpp:122-239 | a successful parse leaves a known request and option values an `int` can hold |
| `Requests.Options.TakePair` | source/tftpOptions.cpp:213-234 | one option pair changes exactly the named option, or throws exactly for a number beyond `int` |
| `Requests.Options.TakeOptions` | source/tftpOptions.cpp:196-236 | the option loop, with its exits in the middle and its exceptions, computes the recursive parser of the model |
| `Requests.Options.BufferParse` | source/tftpOptions.cpp:122-239 | forgets the old options and computes the parser that the round trips are about, from any buffer content and size |
| `Octets.DecimalRoundTrip` | source/tftpCommon.cpp:87-96 | the decimal text of a number passes for digits and reads back as the number |
| `Octets.DecimalPlaces` | source/tftpOptions.cpp:213-215 | decimal place value: a digit counts for itself, and the digits in front of others for as many powers of ten as digits follow |
| `Octets.DecimalUnique` | source/tftpSession.cpp:300-321 | a digit string without a leading zero is the printed form of its value, and so the only one |
| `Octets.BePlaces` | source/tftpSmBuf.h:228-243 | place value of big-endian integers of any length, in powers of 256 |
| `Octets.TwosComplement` | source/tftpSmBuf.h:266-293 | the bits of a negative value are those of the value one whole range above |
| `Octets.LowerMatches` | source/tftpCommon.cpp:77-83 | comparing in lower case is comparing up to the case of ASCII letters |
| `DataFile.BlocksMakeTheFile` | source/tftpDataMgrFile.cpp:228-280 | the blocks from 1 to the last concatenate to the file, and exactly the last is short (empty when the block size divides the length) |
| `DataFile.ReadBlock` | source/tftpDataMgrFile.cpp:228-280 | a stream that has not failed delivers exactly the block at its position, and fails only at the last |
| `DataFile.WriteBlock` | source/tftpDataMgrFile.cpp:172-224 | writing block n over the first n-1 blocks, or once more over the first n, leaves exactly the first n blocks |
| `DataFile.DataMgrFile.Open` | source/tftpDataMgrFile.cpp:57-168 | a file to be read is as it was, a file to be written is empty, and the stream has not failed |
| `DataFile.DataMgrFile.Read` | source/tftpDataMgrFile.cpp:228-280 | size, delivered bytes and stream state as the model of the stream says; bytes that are not delivered stay stale |
| `DataFile.DataMgrFile.Write` | source/tftpDataMgrFile.cpp:172-224 | stores the bytes at the position, or throws exactly for a wrong request type or a negative position, with the file unchanged |
| `SessionLaws.Unwrapping` | source/tftpSession.cpp:746-775 | the decoded stage carries the received number, lies in the 65536-block epoch of the current stage, is acted upon exactly for numbers up to one ahead of the local one, and is the true block number exactly when that lies in the same epoch |
| `SessionLaws.NeighbourNumbers` | source/tftpSession.cpp:746-775 | the awaited block is always decoded right; the block before it exactly when no wrap lies between them |
| `SessionLaws.StepFollowsTable` | source/tftpSession.cpp:87-150 | every step from every state follows the transition table, except a failed receive in data_rx or ack_rx: it asks for error_and_stop, which the table refuses from both, and so ends the session with nothing sent |
| `SessionLaws.StepLawful` | source/tftpSession.cpp:394-608 | what any step keeps: at most one more packet, an ERROR only with the registered error, an error registered only where the transfer ends, and the direction of the request |
| `SessionLaws.DirectionInvariant` | source/tftpSession.cpp:440-571 | over every run a read session stays out of the states that take data in, a write session out of those that give data out, the stream is opened for the request, and a read session never ends in an exception |
| `Exceptions.CrashExactly` | source/tftpSession.cpp:777-787 | a step ends in an exception if and only if data arrives, in data_rx, for block number 0 before the first wrap of the numbers |
| `Exceptions.CrashesExactly` | source/tftpSession.cpp:777-787 | over every run: an exception has left the session if and only if there was such a turn |
| `Exceptions.BlockZeroCrashes` | source/tftpSession.cpp:746-787 | a run from the start: the first data packet of a write has number 0 |
| `Exceptions.CrashPossibleExactly` | source/tftpSession.cpp:746-787 | some environment makes the session of a request end in an exception if and only if it writes, its file opens and its block size is not 0 |
| `SessionLaws.ErrorDiscipline` | source/tftpSession.cpp:434-441 | over every run at most one ERROR packet is sent, it is the last packet, and it carries the first registered error |
| `SessionLaws.ErrorSent` | source/tftpSession.cpp:434-441 | a session in error_and_stop with an error sends exactly one more packet, an ERROR with that error, and finishes, whatever arrives |
| `SessionLaws.ErrorSentExactly` | source/tftpSession.cpp:434-441 | over every run an ERROR packet has been sent if and only if the session was in error_and_stop with an error before the end of the run |
| `Datagrams.ErrorReadsBack` | source/tftpSession.cpp:336-353 | the bytes of an ERROR packet read back as opcode 5, the registered code and the registered text up to its first NUL, and are exactly these with a closing NUL |
| `Datagrams.DeniedAnswered` | source/tftpSession.cpp:262-281 | a request whose stream does not open is answered, in every run of two turns or more, by one datagram, the ERROR with the code and text of the data manager (or the unknown-error text if it gave neither), and the session has finished |
| `Datagrams.AheadReported` | source/tftpSession.cpp:357-380 | an acknowledgement one ahead of the block before the last makes a read report that it cannot prepare data, in literal bytes |
| `Datagrams.SocketFailureEnds` | source/tftpSession.cpp:681-704 | a failing socket ends a waiting session at once, with nothing sent |
| `Datagrams.OthersIgnored` | source/tftpSession.cpp:708-744 | a waiting session treats every packet as silence, but for its bytes in the buffer, that is not from its client, with four bytes at least, and of opcode 3 for a write or 4 for a read |
| `SessionLaws.FirstErrorKept` | source/tftpSession.cpp:612-632 | no step changes a registered error |
| `SessionLaws.ErrorOrigin` | source/tftpSession.cpp:416-502 | an ERROR packet is sent only from error_and_stop, entered with the error from need_init or data_tx |
| `SessionLaws.ReceiveKeeps` | source/tftpSession.cpp:681-821 | what receiving may touch for each of its three results |
| `SessionLaws.ConstructKeeps` | source/tftpSession.cpp:357-380 | preparing data touches buffer and stream, and registers an error when the block lies beyond the file |
| `SessionLaws.StaysEnded` | source/tftpSession.cpp:133-157 | a session that has finished, or was left by an exception, is never changed by later events |
| `BlockSteps.SendsBlock` | source/tftpSession.cpp:482-502 | a session ready to send sends exactly the block of its stage and then waits if the window closes or the block is the last |
| `BlockSteps.StoresBlock` | source/tftpSession.cpp:504-531 | receiving block n, new or once more, leaves exactly the first n blocks stored and moves on as the window decides |
| `Datagrams.BlockIsSlice` | source/tftpSession.cpp:357-380 | block n is the bytes from (n-1)*b up to n*b or the end of the file |
| `Datagrams.StartedValid` | source/tftpSession.cpp:161-164 | every request with a block size up to 65531 is within the model |
| `Datagrams.ReadOnTheWire` | source/tftpSession.cpp:443-571 | from the bytes of a read request to the bytes of the answers, for a file of any length and every run in which the client acknowledges in turn: the datagrams are the reply to the options and the blocks 1, 2, ... in order, with opcode 3, number n mod 65536 and the n-th slice of the block size asked for; the session finishes exactly with the acknowledgement of the last |
| `Datagrams.WriteOnTheWire` | source/tftpSession.cpp:443-544 | the same for a write whose blocks arrive in order: the file holds the bytes that arrived, and the datagrams are the answer to the request and acknowledgements of exactly the multiples of the window asked for, modulo 65536 (of every block if none or 0 was asked for) |
| `Datagrams.WriteEndsExactly` | source/tftpSession.cpp:513-539 | when all blocks have arrived the session acknowledges the last and finishes if and only if the window asked for divides their number |
| `Datagrams.OtherLengthEnds` | source/tftpSession.cpp:511-539 | the awaited block of a write without windows is stored at its place and acknowledged whatever its length, and ends the session if and only if that is not the block size asked for |
| `BlockSteps.TakesAck` | source/tftpSession.cpp:546-571 | an acknowledgement that is accepted sets the stage and ends the session or moves it to the next block; any other ends it |
| `BlockSteps.StageZeroSends` | source/tftpSession.cpp:357-380 | retransmitting at stage 0 sends stale buffer bytes as block 0 and kills the stream |
| `BlockSteps.NothingForUs` | source/tftpSession.cpp:734-744 | a packet from elsewhere, or with another opcode, is like silence except for the bytes it leaves in the buffer |
| `SessionRun.Session.SwitchTo` | source/tftpSession.cpp:87-150 | the in-place switch computes the table of the model |
| `SessionRun.Session.SetErrorIfFirst` | source/tftpSession.cpp:612-625 | an error is registered only if there is none |
| `SessionRun.Session.Transmit` | source/tftpSession.cpp:636-677 | the socket is handed the bytes of the packet that was built |
| `SessionRun.ConstructOptReply` | source/tftpSession.cpp:294-332 | the pushed names and decimals are the bytes of the option acknowledgement, and the rest of the reused buffer stays |
| `SessionRun.Session.ConstructAck` | source/tftpSession.cpp:384-391 | the pushed bytes are those of the ACK packet, and the rest of the reused buffer stays |
| `SessionRun.Session.ConstructError` | source/tftpSession.cpp:336-353 | the pushed bytes are those of the ERROR packet, and the rest of the reused buffer stays |
| `SessionRun.Session.PrepareData` | source/tftpSession.cpp:357-380 | header and file bytes in the reused buffer, size, stream and error state as in the model |
| `SessionRun.ConstructedBytes` | source/tftpSession.cpp:357-380 | what is in the buffer then are the bytes of a DATA packet with the number of the stage |
| `SessionRun.Session.StoreData` | source/tftpSession.cpp:777-787 | what a received block does to the file, and when it throws |
| `SessionRun.Session.TakeData` | source/tftpSession.cpp:749-788 | the DATA branch computes the model of receiving data |
| `SessionRun.Session.TakeAck` | source/tftpSession.cpp:790-818 | the ACK branch computes the model of receiving an acknowledgement |
| `SessionRun.Session.ReceiveNoWait` | source/tftpSession.cpp:681-821 | reading a datagram into the reused buffer and acting on it computes the model of receiving, for every datagram and sender |
| `SessionRun.Session.DoInit` | source/tftpSession.cpp:416-432 | state need_init computes the model step |
| `SessionRun.Session.DoError` | source/tftpSession.cpp:434-441 | state error_and_stop computes the model step |
| `SessionRun.Session.DoOptions` | source/tftpSession.cpp:443-480 | state ack_options computes the model step |
| `SessionRun.Session.SendPrepared` | source/tftpSession.cpp:486-496 | the prepared block goes out and the window decides the next state |
| `SessionRun.Session.DoDataTx` | source/tftpSession.cpp:482-502 | state data_tx computes the model step |
| `SessionRun.Session.DoDataRx` | source/tftpSession.cpp:504-529 | state data_rx computes the model step |
| `SessionRun.Session.DoAckTx` | source/tftpSession.cpp:531-544 | state ack_tx computes the model step |
| `SessionRun.Session.DoAckRx` | source/tftpSession.cpp:546-571 | state ack_rx computes the model step |
| `SessionRun.Session.DoRetransmit` | source/tftpSession.cpp:573-597 | state retransmit computes the model step, with its 16-bit counter |
| `SessionRun.Session.Iterate` | source/tftpSession.cpp:414-603 | one pass through the switch of the main loop is one step of the model |
| `SessionRun.Session.Run` | source/tftpSession.cpp:394-608 | the program with its fields, locals and reused buffer refines the state machine for every environment: same states, file and errors, and on the wire exactly the encodings of the packets the model sends; a denied request puts one literal ERROR datagram there |
| `WriteProtocol.WriteSafety` | source/tftpSession.cpp:504-544 | for every file and every schedule of loss, duplication, delay, strangers and client retries in which the session does not itself retransmit, across any number of wraps: the stored file is the blocks before the awaited one, what is acknowledged is stored, a finished session and a satisfied client mean the whole file, and only behind a wrap can the network break the session off |
| `WriteProtocol.InvariantHolds` | source/tftpSession.cpp:504-544 | the inductive invariant behind WriteSafety: client and session are at most one block apart and the channels hold copies of two neighbouring packets |
| `WriteProtocol.FinishFromAck` | source/tftpSession.cpp:531-539 | a session that ends on an acknowledgement has stored the whole file |
| `WriteProtocol.ResendIsInexact` | source/tftpSession.cpp:573-597 | the session's own retransmission acknowledges a block that has not arrived |
| `WriteProtocol.ExactUnlessResent` | source/tftpSession.cpp:573-597 | every state of a run acknowledges exactly what it has stored if and only if no step of it retransmits |
| `WriteRuns.WriteCompletes` | source/tftpSession.cpp:504-544 | the undisturbed run stores every file, of any length, and ends well on both sides |
| `WriteRuns.LostWithoutTrace` | source/tftpSession.cpp:573-597 | with a retry allowed, every one-block file can be lost while session and client both end well |
| `WriteRuns.BreaksOff` | source/tftpSession.cpp:746-768 | a run that ends with an error behind the first wrap, because a block was duplicated |
| `WriteRuns.BrokenOffExactly` | source/tftpSession.cpp:746-768 | in all runs without a retransmission the network does not break the session off if and only if the file has fewer than 65536 blocks |
| `WriteRecovery.RecoverableExactly` | source/tftpSession.cpp:504-544 | a write can be completed from a reachable state, by some continuation, if and only if the session is about to answer, or the client is at the awaited block, or the acknowledgement that gets it there is under way, or the block before can be acknowledged again; so it is lost for good when the answer to the request is lost, or an acknowledgement at a wrap |
| `WriteRecovery.AnswerLost` | source/tftpSession.cpp:443-480 | a state that is lost for good: the option acknowledgement is lost |
| `WriteRuns.ReliableExactly` | source/tftpSession.cpp:573-597 | a satisfied client means a stored file, in all runs and for all files, if and only if the retransmission limit is 0 |
| `WriteRetries.BrokenOffEverExactly` | source/tftpSession.cpp:746-768 | in all runs, with any retransmissions, the network does not break the session off if and only if the file is one block, or blocks and retries together stay below 65536 and there are at most three blocks or at most one retry |
| `WriteRetries.BreaksAtWrap` | source/tftpSession.cpp:573-597 | a run that ends with an error because retransmissions carry the stage of a shorter file to a wrap |
| `WriteRetries.BreaksByRetries` | source/tftpSession.cpp:746-768 | a run that ends with an error at four blocks and two retries, far from any wrap |
| `WriteRetries.LockStepNeverCrashes` | source/tftpSession.cpp:761-787 | in all runs with a window of one and a conforming client, with any retransmissions, no exception leaves the session |
| `ReadProtocol.ReadSafety` | source/tftpSession.cpp:482-502 | for every file and every schedule of loss, duplication, delay and retransmission without the two breaking events: the client holds a prefix of the file in whole blocks, after a short block the whole file, across any number of wraps, and only behind a wrap can the network break the session off |
| `ReadRuns.ReadCompletes` | source/tftpSession.cpp:482-571 | the undisturbed run delivers every file, of any length, and ends well on both sides |
| `ReadRuns.CleanFinish` | source/tftpSession.cpp:546-571 | without timeouts and duplicated acknowledgements, whatever strangers send, a finished session has served the whole file, without an error |
| `ReadRuns.ConclusionExactly` | source/tftpSession.cpp:546-571 | an acknowledgement that ends the session proves the client has the file if and only if the last block is the first packet sent or its number wraps to 0 |
| `ReadRuns.DeadStreamSends` | source/tftpSession.cpp:357-380 | after that block 1 is stale buffer bytes too |
| `ReadRuns.WrongByte` | source/tftpSession.cpp:573-597 | a concrete run that hands the client a byte that is not the file's |
| `ReadRuns.StrangersByte` | source/tftpSession.cpp:681-744 | a run without options in which a stranger makes a one-byte file read as any byte |
| `ReadRuns.ReliableExactly` | source/tftpSession.cpp:573-597 | in all runs, for all files, the client holds only bytes of the file if and only if the retransmission limit is 0 |
| `ReadRuns.ReliableAmongFriends` | source/tftpSession.cpp:573-597 | in all runs without strangers that holds if and only if the client asked for no options or the limit is 0 |
| `ReadRuns.BrokenOffExactly` | source/tftpSession.cpp:790-809 | in all tame runs the network does not break the session off if and only if the file has fewer than 65536 blocks |
| `ReadRecovery.RecoverableExactly` | source/tftpSession.cpp:482-597 | a client can get the whole file from a reachable state, by some tame continuation, if and only if it is done, or the session is about to send, or the block it waits for is under way or can be sent again: after the acknowledgement before, inside an epoch and before the last block, or after a timeout while a retry is left |
| `ReadRecovery.ReplyLost` | source/tftpSession.cpp:443-480 | a state that is lost for good: the option acknowledgement is lost |
| `ReadRetries.RunFollows` | source/tftpSession.cpp:482-597 | every run, with any retransmissions at stage 0 and any strangers, is followed by one without them, under a limit lowered by the retries made there: same states, stages and acknowledgements, packets of the same numbers and lengths |
| `ReadRetries.ReadLengths` | source/tftpSession.cpp:482-597 | in all runs the client accepts blocks of the right length in order, is done exactly behind the last, holds as many bytes as the file then, and no exception leaves the session |
| `ReadRetries.ConclusionEverExactly` | source/tftpSession.cpp:546-571 | the condition of ReadRuns.ConclusionExactly is exact over all runs |
| `ReadRetries.BrokenOffEverExactly` | source/tftpSession.cpp:790-809 | in all runs the network does not break the session off if and only if the file has fewer than 65536 blocks |
| `ReadRetries.CompletableExactly` | source/tftpSession.cpp:482-597 | from any state of any run the client can be served to the end, by some continuation, if and only if the test of ReadRecovery.RecoverableExactly holds, where a session that sends by mistake at stage 0 counts as waiting |
| `Termination.RetriesBounded` | source/tftpSession.cpp:573-597 | in any run, with whatever packets, at most `limit` retransmissions happen |
| `Termination.SilentProgress` | source/tftpSession.cpp:394-608 | without an answer every step nears the end, except waiting for the timer |
| `Termination.SilentEndExactly` | source/tftpSession.cpp:573-597 | against a silent client, under any schedule of the timer, the session can end if and only if the limit is below 65535, and then does once the timer has expired three times per retry and six times more |
| `Termination.EndlessRetries` | source/tftpSession.cpp:573-597 | with the limit 65535 the 16-bit counter never exceeds it and the retransmissions go on for ever |
| `Termination.RetriesBoundExactly` | source/tftpSession.cpp:573-597 | the retransmissions over all runs are bounded if and only if the limit is below 65535 |
| `Termination.SilentReadSends` | source/tftpSession.cpp:482-597 | a silent read without options has sent, when it ends and under any schedule of the timer, exactly limit + 1 equal copies of block 1 and no ERROR packet |
| `NonInterference.WritesUndisturbed` | source/tftpSession.cpp:734-744 | replacing ignored packets by silence changes no state, stage, stored byte or sent packet of a write session, over every run |
| `NonInterference.ReadsUndisturbedExactly` | source/tftpSession.cpp:681-744 | replacing ignored packets by silence changes no state, stage or sent packet of a read session, over all its runs, if and only if no retry is allowed, or the file does not open, or the block size is 0, or no options were asked for and the block size divides the file |
| `NonInterference.ExposedAtStart` | source/tftpSession.cpp:443-465 | a read with options waits for its first answer in a state where a stranger's byte decides what is sent |
| `NonInterference.ExposedAtEnd` | source/tftpSession.cpp:482-502 | so does a read without options at a short last block |
| `NonInterference.ReadsUndisturbed` | source/tftpSession.cpp:734-744 | a single run of a read session is undisturbed as long as no packet longer than a header is ignored while the stream has failed and nothing is retransmitted at stage 0 |
| `NonInterference.StrangerRewritesLast` | source/tftpSession.cpp:681-744 | with the stream failed at the last block, the block sent again starts with the bytes of the strange packet, of whatever length, and is the right one exactly if those are the same |
| `Windows.WindowedWrite` | source/tftpSession.cpp:504-544 | with any window and blocks in order, acknowledgements are for exactly the multiples of the window, one each and in order, with all blocks up to them stored |
| `Windows.LastBlockAckedExactly` | source/tftpSession.cpp:513-527 | the last block is acknowledged and the session finishes if and only if its number is a multiple of the window |
| `Windows.SkippedBlock` | source/tftpSession.cpp:746-787 | after any run in order, for every block that is lost while the next arrives: that one is taken; the session ends in an exception exactly at block 65535 with data in block 65536; at a later wrap the block is written over an older one, and leaves that intact if and only if its bytes are the same; elsewhere the lost block reads as zeros; a closing window acknowledges both; over all three outcomes the stored bytes are right if and only if the lost block is all zeros and data follows it inside the epoch |
| `Windows.LossCrashesExactly` | source/tftpSession.cpp:761-787 | one packet lost from a conforming client, in a run from the start, ends the session in an exception if and only if the file has data in its block 65536 and the window does not divide 65535 |
| `Windows.SendsForever` | source/tftpSession.cpp:482-502 | a full block that does not close a window is sent again in every turn and nothing is received |
| `Windows.MovesOnExactly` | source/tftpSession.cpp:482-502 | a read moves on from a block under some events if and only if the block closes a window or is the last |
| `Windows.StuckForever` | source/tftpSession.cpp:482-502 | whatever the state of the stream, a session at a full block inside a window stays there under all events and sends one packet in every turn |
| `Windows.WindowedReadNeverEnds` | source/tftpSession.cpp:482-502 | a read of at least one block with a window of two or more, whatever happened before its client's first answer and whatever comes after it, never leaves its first block |
| `Server.FirstDone` | source/tftpSrv.cpp:178-187 | the scan stops at the first finished session, and at the end when there is none |
| `Server.SessionsConserved` | source/tftpSrv.cpp:136-189 | over every run each started session is in the list, in order of start, or was erased, never both and never twice |
| `Server.OneIteration` | source/tftpSrv.cpp:176-187 | an iteration erases a session only if it has finished, and moves a finished one that it does not erase one place to the front |
| `Server.AdmitBreaksExactly` | source/tftpSrv.cpp:149-170 | a packet ends the server, whatever the buffer holds, if and only if it has at least nine bytes and is a request that throws |
| `Server.AdmitStartsExactly` | source/tftpSrv.cpp:142-174 | a packet starts a session, one, for its sender and at the end of the list, if and only if it has at least nine bytes, asks for a file and does not throw; otherwise none is started |
| `Server.NoNulEndsServer` | source/tftpSrv.cpp:149-170 | a concrete packet that does: nine bytes without a NUL |
| `Server.ServerEndsExactly` | source/tftpSrv.cpp:122-189 | as long as no session throws, the server ends if and only if such a packet arrives |
| `Server.BoundedReaping` | source/tftpSrv.cpp:136-189 | a session at index i that is finished from some iteration on is erased within i + 1 iterations from there, whatever arrives and whatever else finishes, as long as no packet or session ends the server by then |
| `Server.ReapedExactly` | source/tftpSrv.cpp:176-187 | while the same sessions are seen finished and nothing ends the server, one is erased after n iterations if and only if n exceeds the number of finished sessions ahead of it |
| `Server.ErasedOnlyWhenDone` | source/tftpSrv.cpp:176-187 | no session is erased before it was seen finished |
| `Server.EndedSessionsAreReaped` | source/tftpSrv.cpp:136-189 | with the list and the session state machine together: a session whose machine reaches finish is erased within i + 1 iterations, and not before |
| `Server.CrashEndsServer` | source/tftpSrv.cpp:165-168 | a running session that an exception leaves ends the server |
| `Server.StaleBytesIgnored` | source/tftpSrv.cpp:136-170 | for confined packets the sessions started do not depend on what earlier packets left in the reused buffer |
| `Server.RequestStartsSession` | source/tftpSrv.cpp:149-170 | a well-formed request starts one session with the options it asks for if and only if it has at least nine bytes |
| `Server.Listener.Accept` | source/tftpSrv.cpp:142-174 | receiving a request into the reused buffer and parsing it computes the model of admission |
| `Server.Listener.EraseFinished` | source/tftpSrv.cpp:176-187 | the loop over the list erases the first finished session and keeps the order of the others |
| `Server.Listener.MainLoop` | source/tftpSrv.cpp:122-189 | the main loop computes the model of a server run, until it is stopped or an exception leaves it |

## Left out

- Sockets, clocks and threads: receiving, the timer and the moment a session is seen finished are events; failures to open or bind a socket and a failing `sendto` (which the code only logs, so that it is the same as a lost packet) are not modelled.
- Output streams that fail to open or to write (disk full), and the error texts for them; the file system, `init` and `close` of the data manager, the search by md5, ownership and permissions: what opening gives is part of the configuration.
- The input stream is modelled by its fail flag: a seek to a negative position or a short read sets it, and a stream that has failed delivers nothing.
- Settings, command line, addresses as structures, logging.
- `step_back_window`, which nothing calls.
- Transfer modes are parsed but, as in the code, have no effect; so has the value of `tsize`.
- `size_t` wrap-around of the stage after 2^64 blocks: stages are unbounded.
- Block sizes above 65531, which do not fit the session's buffer behind a header, are excluded from the session model, and block size 0 from the results about blocks.
- Error texts of the data manager longer than a packet.
- `std::tolower` and `std::isdigit` are those of the C locale.
- Clients that do not follow the protocol: the results of `SessionLaws`, `Termination`, `NonInterference` and `SessionRun` hold for every packet, those of the protocol modules for conforming clients with strangers beside them.
- WriteProtocol.WriteSafety: for a window of one; windows above one are treated in `Windows`, over whole runs with blocks in order; out of order the stored file can be wrong, and `Windows.SkippedBlock` says exactly what happens for one lost block, whichever it is.
- ReadProtocol.ReadSafety: for a window of one, since windowed reads do not get past their first block (`Windows.WindowedReadNeverEnds`).
- NonInterference.ReadsUndisturbed: sufficient for a single run; the condition that is exact over all runs is in `NonInterference.ReadsUndisturbedExactly`.
- DataFile.DataMgrFile.Open: the state of the stream after a successful `init` only.
- Backward iterator ranges, which are undefined in C++ and which a filename without a NUL leads to, are modelled as an exception.

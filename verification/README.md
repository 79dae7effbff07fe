# A verified model of pftp

pftp is an FTP proxy. Each client session has three goroutines around one `proxyServer`: the client command loop
(C), the relay loop (R) and a reader goroutine (D) that each `startProxy` call spawns. A `USER` command makes C
stop R, dial another origin, replay the client's TLS commands to it and start R again. Beside the control
connection the proxy rewrites the negotiation of data connections and copies their bytes.

This project models that behaviour and proves properties of it. `dafny verify dfyconfig.toml` checks everything.

| file | what it models |
|---|---|
| `OriginSwitch.dfy` | C, R and D as a transition system, one action per channel rendezvous, flag access, connection field write or line read; memory is sequentially consistent |
| `ClientStream.dfy` | the two writers to the client, their mutex and their buffered writer |
| `Admission.dfy` | the shared connection counter and the limit check, with 32-bit wrap-around |
| `ReplyFraming.dfy` | how the reader cuts an origin's lines into replies, against section 4.2 of RFC 959 |
| `CommandLine.dfy` | the sanitiser of commands, the stream to the origin, dispatch |
| `Addresses.dfy` | PORT, PASV, EPRT and EPSV texts and their parsers, the public-address filter |
| `TlsReplay.dfy` | the replay of recorded TLS commands to a fresh origin |
| `Configuration.dfy` | validation of the configuration and the choice of listen ports |
| `DataChannel.dfy`, `PacketCopy.dfy` | the data handler and its copy loop |
| `Proxy.dfy`, `Commands.dfy` | the session: proxy server, client handler, every command |
| `ModeCoherence.dfy`, `SessionLaws.dfy` | what the messages about data channels and the commands mean to the two ends |
| `GoStrings.dfy`, `Sequences.dfy`, `Options.dfy` | the functions of Go's `strings` and `strconv` that the proxy uses, with their laws |

## Main results

- Over every interleaving with any number of switches, each relayed reply consists of consecutive lines of one
  origin connection, lines are relayed in order and at most once, and no switched-to origin's first line is
  relayed (`RelayIsPure`). What is relayed is exactly, in order, the replies read to their end while the relay was on
  and taken by R, less those whose write failed (`RelayIsComplete`). Nothing is relayed from the stop of R until C unsuspends (`SilentWindow`), and never
  again after a failed switch (`FailedSwitchIsSilent`).
- A switch has four dead ends: C offers `stopChan` to a relay loop that has ended, spins with the relay off or is
  about to be handed the reader's error; C clears `stop` before R has seen it; R leaves its loop while the reader is
  parked on a channel only that loop receives; or the process panics, because with `ProxyTimeout` set the reader
  resets the deadline of an origin that a failed dial left nil. `CompletableIff` says for every reachable state, from the
  offer of `stopChan` on, that the switch can still complete if and only if it is in none of them; reachable
  witnesses are `SpinningRelayHangs`, `EndedRelayHangs`, `ErringReaderHangs`, `EarlyResetDeadlocks`,
  `ParkedReaderDeadlocks` and `LineAfterFailedDialPanics`. Once `stopChan` is taken, every run that stays out of them has at most 23 steps before the
  rendezvous, not counting replay lines, and 7 more for each line the reader still receives (`SwitchIsShort`).
  Exactly when a step is possible for which D needs no line is `StuckIff`; `SwitchCompletes` names the conditions under
  which there always is one: the reader is not and does not get amid a multi-line reply, and C renews the reader
  only while D is blocked on the old connection or past its last read, which takes no line after that.
- In a session, at every command boundary at most one data handler ever created is open and it is the current
  one; none exists before login; the recorded TLS commands, `controlInTLS`, `transferInTLS` and the TLS layers of
  the client connection agree; after a successful `USER` the origin leg carries exactly as many layers. These are
  `ProxyServer.Valid`, `ClientHandler.TlsParity` and `ClientHandler.Continues`, kept by every command and by
  every event of `ClientHandler.Run`.
- The connection limit holds in every interleaving if and only if fewer than 2^31 connections exist at once
  (`LimitHoldsIff`).
- The reader loses, repeats and reorders no line (`ReaderPartitions`), and where it skips and substitutes nothing,
  its replies and its pending lines are the only division of the origin's stream into replies and an unfinished
  rest (`ReaderFindsTheDivision`). A multi-line reply is passed on whole if and only if its opening line is neither
  a 220 before login nor a skipped complaint about the proxy header (`DeliveredWholeIff`). The closing test is the
  rule of RFC 959 (`ClosesIff`).

## Where the code differs from what one may expect

The model follows the code in each of these cases.

- A 220 line before login is replaced by the welcome message before the multi-line test, so a multi-line greeting
  reaches the client as separate replies; a multi-line reply whose opening line is skipped loses that line
  (`DeliveredWholeIff`, with the witnesses `GreetingIsSplit` and `ComplaintLosesOpening`).
- `parseLine` keeps the parameter of an earlier line exactly when a line holds no space (`ParamIff`), so `PROT`
  right after `USER P` takes the user's name for the level (`LevelOfEarlierLine`).
- Dispatch looks at the raw line, the origin sees the sanitised one; they agree exactly on the lines of
  `PlainCommand` (`DispatchAgreesIff`). So before login data and transfer commands are kept from the origin exactly
  on those lines (`LoginGuardIff`).
- The two fields of a port need not be bytes, nor numbers: any pair whose sum modulo 2^64 is a port is accepted
  (`AcceptedIff`, with the witnesses `StrangePairsAreAccepted` and `LargePortByteIsAccepted`).
- The highest port of a range is never chosen unless it is the only one, though `config.toml` describes the
  setting as min-max (`ChosenPortIff`).
- A `PROT` level other than C and P is refused with 534 and still recorded for the replay (`HandlePROT`).
- A 227 or 229 from an origin that no data command preceded crashes the reader, and with it the process, exactly as
  `CrashesWithout` says (`ReceiveLine`, `UnsolicitedPassiveReply`).
- With `ProxyTimeout` set, a line that the reader receives after the dial of a switch has failed makes the process
  panic (`PanicIff`, `LineAfterFailedDialPanics`).
- A PORT or EPRT command without an argument panics inside the handler; the panic is recovered and nothing is
  answered (`HasArgumentIff`, `BarePortPanics`).
- `copyPackets` reports no error when a write fails (`CopyPackets` returns `WriteFailed`, which the source maps
  to nil).

## Model

| member | source | states |
|---|---|---|
| OriginSwitch.KeepsInv | pftp/proxy.go:346-585 | every action of C, R or D keeps the invariant: who may be where, the flags only C writes, one reader, which connection is current, the latch, the log |
| OriginSwitch.RelayIsPure | pftp/proxy.go:434-566 | in every reachable state each relayed reply is made of consecutive lines of one generation, replies come in the order of their lines without repetition, and no banner is among them |
| OriginSwitch.RelayIsComplete | pftp/proxy.go:434-566 | in every run the client was written exactly the replies that an observer of the actions sees read to their end with the relay on and taken by R, less those whose write failed, in that order |
| OriginSwitch.SwitchedOriginIsRelayed | pftp/client_handler.go:196-220 | a reachable state after a successful switch in which a reply of the new origin has been relayed |
| OriginSwitch.LoggedInIff | pftp/proxy.go:461-463 | the session is logged in exactly when the run holds a login reply |
| OriginSwitch.HandlerIff | pftp/proxy.go:201-208 | there is a data handler exactly when C has attached one |
| OriginSwitch.HandlerAfterLogin | pftp/handle_commands.go:311-331 | a reachable state after login with a data handler |
| OriginSwitch.ConsumedIsRead | pftp/proxy.go:434-437 | of every connection as many lines are consumed as the reader, the banner and the replay have read |
| OriginSwitch.SecondUserIsRefused | pftp/handle_commands.go:13-24 | once logged in, no USER gets past its first check |
| OriginSwitch.SwitchNeedsAddress | pftp/proxy.go:348-350 | the relay is stopped only for a user whose origin was found |
| OriginSwitch.EarlyUnsuspendIff | pftp/handle_commands.go:142-145 | PBSZ and PROT turn the relay on before they return exactly if they pass their line on |
| OriginSwitch.RelayResumesEarly | pftp/handle_commands.go:47-48 | a reachable state in which the relay runs on the new origin before USER has returned |
| OriginSwitch.ErrorCloses | pftp/proxy.go:567-571 | after an error of the reader its connection is closed |
| OriginSwitch.SingleReader | pftp/proxy.go:434-582 | at most one reader lives, it lives exactly while a startProxy call is running, and none lives from the receipt on waitSwitching until the relay is resumed |
| OriginSwitch.RelayBeforeNextLine | pftp/proxy.go:548-566 | between the hand-over of a reply and its acknowledgement no reader reads |
| OriginSwitch.ResultIsTruthful | pftp/proxy.go:369-419 | in every run the value offered on waitSwitching is true exactly when dial, proxy header, banner and TLS replay were each answered with success since stopChan was taken, and then the reader will use the newest connection, past its banner |
| OriginSwitch.SilentWindow | pftp/proxy.go:360-377 | from the receipt of stopChan until C unsuspends, no run adds to what was relayed |
| OriginSwitch.FailedSwitchIsSilent | pftp/client_handler.go:212-219 | after false is received on waitSwitching no run relays anything |
| OriginSwitch.OverIsForever | pftp/client_handler.go:196-222 | a relay loop that has ended stays ended |
| OriginSwitch.SwitchSparesDataHandler | pftp/proxy.go:353-355 | a data handler exists only after login, and the Close performed for a switch never finds one |
| OriginSwitch.LoginIsFinal | pftp/proxy.go:461-463 | isLoggedin is never cleared, and once it is set and no command is past its check, no run stops the relay for a switch |
| OriginSwitch.DoomedRun | pftp/proxy.go:365-377 | from a dead end no run reaches the rendezvous on waitSwitching |
| OriginSwitch.RescueRun | pftp/proxy.go:365-420 | from every other state since stopChan is offered some run reaches it |
| OriginSwitch.CompletableIff | pftp/proxy.go:365-585 | a switch that offers stopChan or has stopped the relay can complete if and only if it is at no dead end |
| OriginSwitch.EvasiveStep | pftp/proxy.go:346-582 | every step into no dead end brings the rendezvous nearer, but for lines that are read |
| OriginSwitch.SwitchIsShort | pftp/proxy.go:366-420 | after stopChan is taken, every run without a dead end and without the rendezvous has at most 23 steps, plus one per replay line and 7 per line the reader receives |
| OriginSwitch.StuckIff | pftp/proxy.go:372-377 | in a switch at no dead end some step is possible for which D needs no line, except exactly when C is about to clear `stop` and D is blocked on an open connection or amid a multi-line reply |
| OriginSwitch.SwitchCompletes | pftp/proxy.go:366-420 | if D never is amid a multi-line reply and never gets to read the new connection, the same bound holds and a further step for which D needs no line is always possible |
| OriginSwitch.SpinningRelayHangs | pftp/client_handler.go:196-219 | a reachable switch that offers stopChan to a relay loop spinning with passThrough false, and that no run can complete |
| OriginSwitch.ErringReaderHangs | pftp/proxy.go:567-571 | a reachable switch that offers stopChan to a relay loop whose reader offers an error, and that no run can complete |
| OriginSwitch.EndedRelayHangs | pftp/proxy.go:567-571 | a reachable switch that offers stopChan to a relay loop that has ended, and that no run can complete |
| OriginSwitch.PanicIff | pftp/proxy.go:444-451 | with ProxyTimeout set the process comes to its panic exactly when D receives a line while there is no origin connection, or the dial fails while D has a line whose deadline it has not yet reset |
| OriginSwitch.LineAfterFailedDialPanics | pftp/proxy.go:379-383 | a reachable switch whose dial has failed and whose reader then receives a line, about to panic |
| OriginSwitch.MultiLineAwaits | pftp/proxy.go:530-536 | a reachable switch that only a further line of the old origin can complete |
| OriginSwitch.ParkedReaderDeadlocks | pftp/proxy.go:548-551 | a reachable switch whose reader is parked at `read <-` and that no run can complete |
| OriginSwitch.EarlyResetDeadlocks | pftp/proxy.go:372-377 | a reachable switch whose `stop` was reset too early and that no run can complete |
| ClientStream.KeepsInv | pftp/client_handler.go:307-320 | every step of writeLine and sendToClient keeps mutual exclusion and the account of where each byte is |
| ClientStream.ClientSeesWholeMessages | pftp/proxy.go:151-164 | the client's bytes are a prefix of whole CRLF-closed messages in lock order, and all of them while no write has failed |
| ClientStream.ClientReadsTheLines | pftp/client_handler.go:307-320 | the client reads a prefix of the lines of the calls in the order they got the lock, each followed by CRLF, and all of them while no write has failed and no call is under way |
| Admission.AdmissionIsBounded | pftp/client_handler.go:126-152 | in every interleaving of accepts, checks and exits in which the 32-bit counter does not wrap, it equals the number of live handlers, and those past the check never exceed the limit |
| Admission.WrappedAdmits | pftp/client_handler.go:88-89 | with one connection more than the counter holds, a reachable state has limit + 1 handlers past the check |
| Admission.LimitHoldsIff | pftp/server.go:87-126 | the limit is kept in every run if and only if at most 2^31 - 1 connections exist at once |
| Admission.LatestBounds | pftp/client_handler.go:88-89 | the count stored at creation bounds the handlers admitted up to that one, however late it is compared |
| ReplyFraming.ReadContinuation | pftp/proxy.go:525-546 | the inner loop collects exactly the lines up to the first closing one; its index 3 is in bounds |
| ReplyFraming.ReadTurn | pftp/proxy.go:434-546 | one turn of the reader's loop is OneTurn |
| ReplyFraming.ReadReplies | pftp/proxy.go:434-555 | the reader's loop computes Read |
| ReplyFraming.ReaderPartitions | pftp/proxy.go:434-555 | skipped lines, replies and pending lines are, in order, the origin's stream |
| ReplyFraming.ReaderIsFaithful | pftp/proxy.go:524-546 | every reply is one whole reply of the origin, byte for byte, unless it is a replaced 220 or the answer to a data command |
| ReplyFraming.RepliesAreUnique | pftp/proxy.go:524-546 | a stream divides into replies and an unfinished rest in only one way |
| ReplyFraming.LoginIff | pftp/proxy.go:461-463 | a reply line logs a client in exactly when its code is 230 |
| ReplyFraming.StreamLogsInIff | pftp/proxy.go:434-555 | over a stream the client ends up logged in exactly when it was or a line with code 230 starts one of the reader's turns |
| ReplyFraming.SingleLineIff | pftp/proxy.go:454-472 | a single line is skipped, replaced by the welcome message or passed on as it is, exactly in the cases named |
| ReplyFraming.RewrittenLine | pftp/proxy.go:475-546 | the answer to a data command is passed on in the words that replace it |
| ReplyFraming.OpensIff | pftp/proxy.go:525 | a coded line opens a multi-line reply exactly if a dash follows its code |
| ReplyFraming.MultiLineLogin | pftp/proxy.go:525-546 | witness: a three-line login reply is passed on as one |
| ReplyFraming.ClosingTestInBounds | pftp/proxy.go:537-541 | a line whose code equals that of an opening line has a fourth byte |
| ReplyFraming.CodeOfLine | pftp/proxy.go:597-603 | splitting at the first occurrence of byte 3 finds the three-byte code |
| ReplyFraming.ClosesIff | pftp/proxy.go:541 | a line closes a reply if and only if it starts with the code and a space, as section 4.2 of RFC 959 says |
| ReplyFraming.ClosableIff | pftp/proxy.go:525-546 | a reply can be closed by some line if and only if its code holds no space |
| ReplyFraming.ReaderFindsTheDivision | pftp/proxy.go:434-555 | where nothing is skipped or substituted, the reader's replies and pending lines are the only division of the stream into replies and an unfinished rest |
| ReplyFraming.TurnDeliversIff | pftp/proxy.go:454-546 | whatever lines follow, one turn assembles a multi-line reply whole if and only if its opening line is neither replaced nor skipped |
| ReplyFraming.DeliveredWholeIff | pftp/proxy.go:454-546 | the reader passes on a multi-line reply as one reply, byte for byte, if and only if its opening line is neither a 220 before login nor a skipped complaint |
| ReplyFraming.GreetingIsSplit | pftp/proxy.go:456-458 | witness: a three-line greeting before login is passed on as three replies |
| ReplyFraming.ComplaintLosesOpening | pftp/proxy.go:470-472 | witness: a multi-line complaint loses its opening line |
| CommandLine.CommandLineCheck | pftp/proxy.go:98-127 | the loop computes Sanitize |
| CommandLine.SanitizeFailsIff | pftp/proxy.go:102-112 | the check fails if and only if the line has no ASCII letter |
| CommandLine.SanitizeMeans | pftp/proxy.go:114-126 | otherwise the result is the line from its first letter, without CR and LF, closed by one CRLF |
| CommandLine.FixpointIff | pftp/proxy.go:98-127 | the fixpoints are exactly the lines that start with a letter and hold one CR and one LF, at the end |
| CommandLine.SanitizeTwice | pftp/proxy.go:98-127 | sanitising a result changes nothing |
| CommandLine.StreamDecodes | pftp/proxy.go:129-149 | a concatenation of sanitised lines decodes into exactly those lines |
| CommandLine.OriginWriter.SendToOrigin | pftp/proxy.go:129-149 | succeeds iff the line is accepted and written; the stream decodes to the lines sent so far |
| CommandLine.DispatchAgreesIff | pftp/client_handler.go:399-410 | the command dispatched is the one the origin sees, up to case, if and only if the line names it plainly |
| Addresses.ParseIP | pftp/data_handler.go:682-684 | an accepted IPv4 literal has four bytes |
| Addresses.ParseIPIff | pftp/data_handler.go:682-684 | a text is read as four bytes exactly if it is their decimal form with dots, without leading zeros |
| Addresses.ParsePrinted | pftp/data_handler.go:666-692 | for every literal and port 1 to 65535 parseLineToAddr inverts the printer of PORT and PASV |
| Addresses.AcceptedSurvives | pftp/data_handler.go:666-692 | whatever is accepted is a literal with a port in range and survives printing and parsing again |
| Addresses.AcceptedIff | pftp/data_handler.go:666-692 | exactly which lines are accepted and as what: behind a literal, bytes as every port but 0, any other two fields just when their sum modulo 2^64 is a port |
| Addresses.StrangePairsAreAccepted | pftp/data_handler.go:676-689 | behind every literal 0,300, x,300, -1,300 and 2^63-1,300 are accepted |
| Addresses.LargePortByteIsAccepted | pftp/data_handler.go:676-689 | witness: 1,2,3,4,0,300 is accepted as port 300 |
| Addresses.PortLineParses | pftp/handle_commands.go:385-390 | the PORT line sent to the origin reads back as the listener's address |
| Addresses.PasvReplyParses | pftp/proxy.go:501-509 | the rewritten 227 reads back as the masquerade address and the port |
| Addresses.EpsvReplyParses | pftp/proxy.go:510-516 | the rewritten 229 reads back as the port |
| Addresses.EprtParses | pftp/data_handler.go:695-727 | an EPRT argument of RFC 2428 with protocol 1 reads back as its address |
| Addresses.EprtIff | pftp/data_handler.go:695-727 | of an argument with four bars, exactly which are accepted, which are an unknown protocol and which no address |
| Addresses.EpsvPortIff | pftp/data_handler.go:654-660 | the digits between the bars are taken exactly when they denote a port |
| Addresses.PublicIffOutside | pftp/data_handler.go:736-753 | the byte tests are non-membership in six intervals of 32-bit addresses |
| TlsReplay.OriginLeg.AwaitReply | pftp/proxy.go:297-340 | the inner loop computes Await |
| TlsReplay.OriginLeg.SendTLSCommand | pftp/proxy.go:285-344 | the outer loop computes Replay |
| TlsReplay.SuccessIsGranted | pftp/proxy.go:285-344 | a replay that returns nil consumed one granting block per command, sent all commands in order and wrapped the connection once per AUTH |
| TlsReplay.GrantedSucceeds | pftp/proxy.go:285-344 | if such blocks come next and every command can be written, the replay returns nil |
| TlsReplay.ReplaySucceedsIff | pftp/proxy.go:285-344 | the replay returns nil if and only if every AUTH gets 234 and a handshake and every other command a line |
| TlsReplay.ReplaySends | pftp/proxy.go:285-344 | however it ends, the origin was sent a prefix of the commands; a refusal does not stop the replay, and a finished one failed exactly when some AUTH was refused |
| TlsReplay.ReplayFinishes | pftp/proxy.go:285-344 | with a line for every command the replay ends, whatever the lines say |
| TlsReplay.ComplaintIsSkipped | pftp/proxy.go:308-320 | a complaint about the proxy header in place of 234 is passed over exactly when such a header was sent |
| TlsReplay.OtherLineRefuses | pftp/proxy.go:308-320 | any other line in place of 234 refuses the AUTH |
| TlsReplay.JudgeByKind | pftp/proxy.go:306-339 | only AUTH leads to a handshake or a refusal, only other commands are merely answered |
| Configuration.Config.ValidateConfig | pftp/config.go:55-83 | computes Validated |
| Configuration.ValidationIsIdempotent | pftp/config.go:55-83 | validating again changes neither the configuration nor the verdict |
| Configuration.AcceptedConfig | pftp/config.go:55-83 | an accepted configuration has one of four modes, an acceptable range and no masquerade address but a literal |
| Configuration.ValidatedIff | pftp/config.go:55-83 | exactly what fails, when a port range is dropped, and what is kept |
| Configuration.ModeIff | pftp/config.go:67-80 | which texts, in any case, stand for which mode |
| Configuration.RangeIff | pftp/config.go:136-163 | two numbers around a dash, with any white space, are a range exactly when they are ordered ports |
| Configuration.AcceptedRangeChooses | pftp/data_handler.go:141-158 | with an accepted range getListenPort never panics and returns nothing or a port inside the range |
| Configuration.ChosenPortIff | pftp/data_handler.go:150-157 | exactly which ports can be chosen: all but the upper end, or the only one |
| Configuration.SetNewListener | pftp/data_handler.go:161-196 | stops after at most 31 attempts, at the first port that is free |
| DataChannel.DataHandler.constructor | pftp/data_handler.go:52-91 | a new handler is open, holds nothing and knows both control peers |
| DataChannel.DataHandler.OpenListeners | pftp/data_handler.go:98-119 | listens on exactly the legs whose modes need it, or closes the handler and fails |
| DataChannel.DataHandler.Close | pftp/data_handler.go:199-252 | releases everything held once and in order, clears all four resources and inDataTransfer; closing again changes nothing |
| DataChannel.HeldIff | pftp/data_handler.go:210-244 | a leg holds exactly its open listener and its connection |
| DataChannel.DataHandler.ParsePORTcommand | pftp/data_handler.go:590-602 | the stored address is public or the control peer's own |
| DataChannel.DataHandler.ParseEPRTcommand | pftp/data_handler.go:605-619 | the stored address is public or the control peer's own |
| DataChannel.DataHandler.ParsePASVresponse | pftp/data_handler.go:622-641 | after a parenthesised reply the stored address is public or the control peer's own, and always the latter with IgnorePassiveIP |
| DataChannel.DataHandler.ParseEPSVresponse | pftp/data_handler.go:644-663 | only the port is stored, and only if it is in range |
| PacketCopy.CopyPackets | pftp/data_handler.go:554-587 | dst has received a prefix of what was read, all of it unless a write failed, and EOF only after every byte; where and why the loop stops is determined by the turns |
| Proxy.ProxyServer.DestroyDataHandler | pftp/proxy.go:211-215 | every handler of the session is closed afterwards |
| Proxy.ProxyServer.Close | pftp/proxy.go:181-193 | destroys the handler only if the origin connection closed without error |
| Proxy.ProxyServer.SetDataHandler | pftp/proxy.go:201-208 | the new handler is current and every earlier one closed |
| Proxy.ProxyServer.LearnAddress | pftp/proxy.go:476-483 | what the current handler learns from a passive reply, and exactly when the reader crashes |
| Proxy.ProxyServer.AnswerInOwnMode | pftp/proxy.go:500-521 | what stands for the answer to a data command |
| Proxy.ProxyServer.RewriteDataReply | pftp/proxy.go:475-522 | the whole data-channel part of the reader's loop, the transfer flag included |
| Proxy.ProxyServer.ReceiveLine | pftp/proxy.go:454-522 | a line sets the login latch exactly if its code is 230, is replaced, skipped, rewritten or crashes the reader, in that order; the session's invariant is kept |
| Proxy.ProxyServer.SendToOrigin | pftp/proxy.go:129-149 | appends exactly the sanitised line to the origin's stream, or nothing |
| Proxy.ProxyServer.AttachDataHandler | pftp/handle_commands.go:311-331 | attaches a fresh open handler, or leaves the current one alone |
| Proxy.UnsolicitedPassiveReply | pftp/proxy.go:476-483 | witness: a parenthesised 227 without a data handler crashes the reader of a client that has logged in |
| Proxy.ProxyServer.ConnectOrigin | pftp/proxy.go:379-416 | a fresh connection, wrapped once per recorded AUTH when it succeeds; a failed dial keeps the old writer |
| Proxy.ProxyServer.SwitchOrigin | pftp/proxy.go:346-420 | succeeds iff the client is not logged in and every step succeeds, touches no data handler and restores passThrough |
| Commands.ClientHandler.ParseLine | pftp/client_handler.go:403-410 | the command is upper-cased; a missing parameter keeps the old one |
| Commands.ClientHandler.HandleAUTH | pftp/handle_commands.go:62-120 | success adds one layer, one recorded command and sets controlInTLS; failure changes neither |
| Commands.ClientHandler.HandlePBSZ | pftp/handle_commands.go:123-161 | answered and recorded before login, passed on after it, refused outside TLS |
| Commands.ClientHandler.HandlePROT | pftp/handle_commands.go:164-222 | as PBSZ, and transferInTLS becomes whether the parameter is P |
| Commands.ClientHandler.HandleUSER | pftp/handle_commands.go:13-60 | refused after login; after a switch the origin leg has as many TLS layers as the client's and is in TLS iff the client's is |
| Commands.ClientHandler.LearnClientAddress | pftp/handle_commands.go:333-369 | a bad address closes the handler and is answered 501 or 522; a missing one panics and leaves it open |
| Commands.ClientHandler.SendDataCommand | pftp/handle_commands.go:371-411 | 425 if the handler is gone, 500 and a closed handler if the origin cannot be told |
| Commands.ClientHandler.HandleDATA | pftp/handle_commands.go:289-426 | the exact answer; success leaves one open handler in the client's and the configured mode and every earlier one closed |
| Commands.ClientHandler.HandleTransfer | pftp/handle_commands.go:224-263 | 530, 425 and 450 start nothing; otherwise one transfer in the direction of the command |
| Commands.ClientHandler.Perform | pftp/client_handler.go:351-367 | a suspended relay is always resumed; answer, record, stream and TLS state as for the command |
| Commands.ClientHandler.HandleCommand | pftp/client_handler.go:327-369 | every command keeps the session's invariant, and answers, records and sends what its handler does; a refusing middleware sends nothing |
| Commands.ClientHandler.Run | pftp/client_handler.go:225-305 | over any sequence of commands, origin lines, transfer ends and closes, the invariant holds at each boundary, logins and closed handlers stay, none is created and no transfer starts before login, and after it the origin stream only grows |
| Commands.LoginGuardIff | pftp/client_handler.go:351-366 | before login a line the origin would read as a data or transfer command is refused with 530 if and only if it names its command plainly; any other is passed on |
| Commands.ParamIff | pftp/client_handler.go:399-410 | the earlier parameter is kept if and only if the line holds no space; otherwise word, space and parameter make up the line |
| Commands.LevelOfEarlierLine | pftp/handle_commands.go:210-214 | witness: PROT alone after USER P sets the data protection level to private |
| Commands.HasArgumentIff | pftp/data_handler.go:594 | the index of the argument is in bounds if and only if the line holds a space |
| Commands.BarePortPanics | pftp/client_handler.go:329-336 | witness: after login PORT alone panics, is answered with nothing and sends nothing |
| ModeCoherence.OriginCommandFits | pftp/handle_commands.go:378-397 | for every validated mode the origin gets PORT with the listener's address iff the handler listens on its side, else the bare configured mode or, in CLIENT mode, the client's own command, and the line is sent unchanged |
| ModeCoherence.AnswerFits | pftp/proxy.go:500-516 | while the handler is open every answer to a data command has the code of the client's own mode, and a passive one decodes to the handler's own listener port |
| ModeCoherence.NoHandlerIs425 | pftp/proxy.go:500-521 | without an open handler every answer to a data command becomes 425 and any other reply is untouched |
| ModeCoherence.OtherRepliesPass | pftp/proxy.go:475-522 | a reply with another code than 227, 229 and 200 passes as it is |
| ModeCoherence.CrashIffStored | pftp/data_handler.go:622-663 | without a handler a passive reply crashes the reader exactly when its parser panics anyway or would store something |
| ModeCoherence.PortIsStored | pftp/data_handler.go:590-602 | a client's PORT is accepted and its port stored, with its address if public and the control peer's otherwise |
| ModeCoherence.EprtIsStored | pftp/data_handler.go:605-619 | the same for EPRT with protocol 1 |
| ModeCoherence.PasvIsLearnt | pftp/data_handler.go:622-641 | from a 227 with any text around it the port is learnt, and the address if it is public and not ignored, else the control peer's is dialled |
| ModeCoherence.EpsvIsLearnt | pftp/data_handler.go:644-663 | from a 229 the port alone is learnt, if it is one |
| ModeCoherence.LegsFit | pftp/data_handler.go:52-119 | a new handler listens for the client exactly in passive modes, at the port given, and knows both peers |
| SessionLaws.RefusedStateIff | pftp/handle_commands.go:13-24 | a second USER is 500 exactly after login, and PBSZ and PROT are 503 exactly outside TLS |
| SessionLaws.GrantedIff | pftp/handle_commands.go:13-222 | exactly when USER, AUTH, PBSZ and PROT are granted |
| SessionLaws.UnknownCommand | pftp/client_handler.go:359-366 | any other command is passed on or answered with 500 |
| SessionLaws.TransferNeeds | pftp/handle_commands.go:224-245 | a transfer command is 530 exactly before login and 425 exactly without an open handler, and a granted one starts one transfer |
| SessionLaws.BusyIff | pftp/handle_commands.go:239-244 | with an open handler it is 450 exactly while a transfer is in progress, and then starts none |
| SessionLaws.ChannelRefusals | pftp/handle_commands.go:301-376 | exactly when a data command is 450, 421 or 425 |
| SessionLaws.BadAddress | pftp/handle_commands.go:333-369 | exactly which addresses are taken, and which are 522; all others are 501 |
| SessionLaws.Directions | pftp/handle_commands.go:246-254 | which commands download and which upload |
| SessionLaws.RecordedIff | pftp/handle_commands.go:62-222 | a TLS command is recorded exactly when it is granted and not passed on to the origin |
| SessionLaws.PassedOnIff | pftp/handle_commands.go:13-426 | which granted commands do not reach the origin |
| SessionLaws.PassesOnWhatItRead | pftp/client_handler.go:351-367 | outside proxied data commands the origin reads the command that was dispatched |
| SessionLaws.SwitchSucceedsIff | pftp/proxy.go:346-420 | a switch succeeds exactly when every step does and the new origin grants every recorded command |
| ModeCoherence.AnswerIsSingle | pftp/proxy.go:500-525 | what replaces a reply never opens a multi-line reply |
| GoStrings.UpperIff | pftp/client_handler.go:406 | texts have one upper-case form exactly when they differ in case only |
| GoStrings.AtoiOfSigned | pftp/data_handler.go:676-677 | signs are taken into account |
| GoStrings.AtoiSaturates | pftp/data_handler.go:676-677 | a number outside 64 bits becomes the nearest one inside, with an error |
| GoStrings.JoinSplit | pftp/data_handler.go:667-674 | joining the fields of a text gives it back |
| GoStrings.SplitReplace | pftp/handle_commands.go:387-390 | replacing the separator and splitting at the new one gives the same fields |

## Left out

- Sockets, dialling, deadlines, keepalive, linger, TLS handshakes, middleware bodies and the parsing of PROXY
  lines are answers of a `World` value; their outcomes are arbitrary.
- The goroutines are transition systems over values, not methods: Dafny methods have no concurrency. The
  imperative classes of `Proxy.dfy` and `Commands.dfy` take one command or one line as one step.
- OriginSwitch.RelayIsPure: abstracts the text of lines, and the new `originReader` after a TLS handshake belongs
  to the generation of the connection it wraps.
- ClientStream.ClientSeesWholeMessages: the writer that handleAUTH exchanges for a TLS one is outside it, because
  that swap takes place without the mutex.
- Addresses.AcceptedSurvives: knows IPv4 literals only, so the IPv6 forms that `net.ParseIP` also accepts are
  rejected by the model, among them comma-separated ones with an embedded IPv4 address.
- Addresses.EprtParses: protocol 2 addresses are rejected as invalid for the same reason.
- Strings are byte strings; `strings.ToUpper` and `strings.TrimSpace` are those of ASCII, so lines with other
  letters may dispatch differently.
- Addresses.Between: a reply whose last `)` precedes its first `(` makes the source panic; the parsers require
  the other order, and the reader's crash is stated separately.
- DataChannel.DataHandler.constructor: nil connections, which no caller passes after login, are not modelled.
- DataChannel.DataHandler.Close: the error of the last failed close is not returned.
- StartDataTransfer, clientListenOrDial and originListenOrDial: a handler may get a connection after it was
  closed, and pipelined commands can start two transfers, so neither is excluded; only the start is recorded.
- CommandLine.OriginWriter.SendToOrigin: a write that fails is taken to have sent nothing, and the raw commands of
  the TLS replay are counted in `TlsReplay.Leg.sent` instead.
- Commands.ClientHandler.HandleCommand: the texts of replies are left out, only their codes are kept.
- Proxy.ProxyServer.ReceiveLine: the deadline set for each line, and the panic when there is no origin to set it on,
  are in `OriginSwitch.dfy` (`PanicIff`).
- Proxy.ProxyServer.SwitchOrigin: the stop handshake and its dead ends are in `OriginSwitch.dfy`; this step is a switch
  whose handshake came to an end.
- Proxy.ProxyServer.SendToOrigin: as for the writer it calls, a write that fails is taken to have sent nothing.
- Commands.ClientHandler.Run: each command and each line is one step, so what happens amid a command is left to
  `OriginSwitch.dfy` and `ClientStream.dfy`. The loop's own read errors, the idle timeout and failing replies, after which the
  source ends the session, are left out; they only stop the sequence of commands earlier.
- Proxy.ProxyServer.AnswerInOwnMode: the masquerade address is a parameter; that the first client's local address
  is stored into the shared configuration when none is set is not modelled.
- `tls.go`, `logger.go`, `result.go`, `socket_control.go`, the option setters of `config.go`, `main.go`, the server
  starter and the example web API: plumbing with easy members.

/** What the commands of a session mean to its two ends, beyond what each handler does. */
module SessionLaws {
  import opened GoStrings
  import opened Options
  import opened Addresses
  import opened DataChannel
  import opened Proxy
  import opened Commands
  import CommandLine
  import ReplyFraming
  import TlsReplay

  // ---------------------------------------------------------------- refusals

  /** Protection levels are refused with 503 exactly outside TLS, and a second USER with 500 exactly after login. */
  lemma RefusedStateIff(h: ClientHandler, line: string, w: World)
    ensures h.AnswerTo("PBSZ", line, w) == Reply(503) <==> !h.controlInTLS
    ensures h.AnswerTo("PROT", line, w) == Reply(503) <==> !h.controlInTLS
    ensures h.AnswerTo("USER", line, w) == Reply(500) <==> h.proxy.isLoggedin
  {
    hide SwitchSucceeds, CommandLine.Sanitize;
  }

  /** What grants the commands that concern login and TLS. */
  lemma GrantedIff(h: ClientHandler, line: string, w: World)
    ensures h.AnswerTo("AUTH", line, w) == Nothing <==> w.tlsConfigured && w.replyOk && w.handshakeOk
    ensures h.AnswerTo("USER", line, w) == Nothing <==>
      !h.proxy.isLoggedin && SwitchSucceeds(w, h.proxy.config.proxyProtocol, h.previousTLSCommands) && Sent(line, w)
    ensures forall c :: c in ["PBSZ", "PROT"] ==>
      (h.AnswerTo(c, line, w) == Nothing <==>
         h.controlInTLS && if h.proxy.isLoggedin then Sent(line, w) else w.replyOk)
    ensures !h.proxy.isLoggedin ==> h.AnswerTo("USER", line, w) in [Nothing, Reply(530)]
    ensures h.AnswerTo("AUTH", line, w) in [Nothing, Reply(550)]
  {
    hide SwitchSucceeds, CommandLine.Sanitize;
  }

  /** Any command the proxy has no handler for is passed on or answered with 500. */
  lemma UnknownCommand(h: ClientHandler, command: string, line: string, w: World)
    requires !IsHandled(command)
    ensures h.AnswerTo(command, line, w) == if Sent(line, w) then Nothing else Reply(500)
    ensures h.RecordedBy(command, line, w) == [] && h.StartedBy(command, line, w) == []
  {
    hide CommandLine.Sanitize;
  }

  /** While a transfer is in progress, and only then, an available handler refuses a further one with 450. */
  lemma BusyIff(h: ClientHandler, command: string, line: string, w: World)
    requires h.proxy.isLoggedin && h.proxy.Available() && IsTransfer(command)
    ensures h.AnswerTo(command, line, w) == Reply(450) <==> h.proxy.inDataTransfer.on
    ensures h.proxy.inDataTransfer.on ==> h.StartedBy(command, line, w) == [] && !h.AnswerTo(command, line, w).Nothing?
  {
    hide CommandLine.Sanitize;
  }

  /** A transfer command needs a login and an open handler, in this order. */
  lemma TransferNeeds(h: ClientHandler, command: string, line: string, w: World)
    requires IsTransfer(command)
    ensures h.AnswerTo(command, line, w) == Reply(530) <==> !h.proxy.isLoggedin
    ensures h.AnswerTo(command, line, w) == Reply(425) <==>
      h.proxy.isLoggedin && (h.proxy.dataConnector == null || h.proxy.dataConnector.closed)
    ensures h.AnswerTo(command, line, w).Nothing? ==>
      h.proxy.isLoggedin && h.proxy.Available() && !h.proxy.inDataTransfer.on && |h.StartedBy(command, line, w)| == 1
  {
    hide CommandLine.Sanitize;
  }

  /** Data commands: 450 during a transfer, 421 for a leg that cannot listen, 425 when the origin is lost meanwhile. */
  lemma ChannelRefusals(h: ClientHandler, command: string, line: string, w: World)
    requires h.proxy.isLoggedin && h.proxy.config.dataChanProxy && IsDataCommand(command)
    ensures h.AnswerTo(command, line, w) == Reply(450) <==> h.proxy.dataConnector != null && h.proxy.inDataTransfer.on
    ensures h.AnswerTo(command, line, w) == Reply(421) <==>
      !h.proxy.Transferring() && !CanListen(command, h.proxy.config.transferMode, w)
    ensures h.AnswerTo(command, line, w) == Reply(425) ==> w.originLost
    ensures IsPassive(command) && !h.proxy.Transferring() && CanListen(command, h.proxy.config.transferMode, w) ==>
      && (h.AnswerTo(command, line, w) == Reply(425) <==> w.originLost)
      && (!w.originLost ==>
            var sent := Sent(OriginCommand(command, h.proxy.config.transferMode, w), w);
            h.AnswerTo(command, line, w) == if sent then Nothing else Reply(500))
  {
    hide CommandLine.Sanitize, CanListen, OriginCommand, ClientAddress, HasArgument;
  }

  /** A malformed address is 501, and 522 exactly for an EPRT whose protocol is neither 1 nor 2. */
  lemma BadAddress(command: string, line: string)
    requires IsActive(command) && HasArgument(line)
    ensures AddressAnswer(command, line) == Nothing <==>
      (command == "PORT" && ParseLineToAddr(Argument(line)).Some?)
      || (command == "EPRT" && ParseEPRTtoAddr(Argument(line)).EprtAddr?)
    ensures AddressAnswer(command, line) == Reply(522) <==>
      command == "EPRT" && ParseEPRTtoAddr(Argument(line)).UnknownProtocol?
    ensures AddressAnswer(command, line) in [Nothing, Reply(522), Reply(501)]
  {
    hide ParseLineToAddr, ParseEPRTtoAddr, Argument, HasArgument;
  }

  /** Which commands move data to the client, and which to the origin. */
  lemma Directions()
    ensures forall c :: c in ["RETR", "LIST", "MLSD", "NLST"] ==> IsTransfer(c) && IsDownload(c)
    ensures forall c :: c in ["STOR", "STOU", "APPE"] ==> IsTransfer(c) && !IsDownload(c)
    ensures forall c :: IsTransfer(c) ==> c in ["RETR", "LIST", "MLSD", "NLST", "STOR", "STOU", "APPE"]
  {
  }

  // ---------------------------------------------------------------- what is recorded, and what is sent

  /**
   A TLS command is recorded for the replay exactly when the proxy grants it on its own: granted and not passed on
   to the origin. Nothing else is recorded.
   */
  lemma RecordedIff(h: ClientHandler, command: string, line: string, w: World)
    requires CommandLine.Sanitize(line).Some?
    ensures command in ["AUTH", "PBSZ", "PROT"] ==>
      (h.RecordedBy(command, line, w) == [line] <==>
         h.AnswerTo(command, line, w).Nothing? && h.SentBy(command, line, w) == [])
    ensures command !in ["AUTH", "PBSZ", "PROT"] || !h.AnswerTo(command, line, w).Nothing? ==>
      h.RecordedBy(command, line, w) == []
  {
    hide CommandLine.Sanitize, SwitchSucceeds, DataAnswer;
  }

  /**
   What the proxy passes on is the command it dispatched on: outside proxied data commands, a granted command that
   reached the origin is read there as that command, for every line that names it plainly.
   */
  lemma PassesOnWhatItRead(h: ClientHandler, line: string, w: World)
    requires ReadLine(line) && CommandLine.PlainCommand(line) && CommandLine.Sanitize(line).Some?
    requires var c := ToUpper(CommandLine.Word(line));
             (IsDataCommand(c) ==> !h.proxy.config.dataChanProxy) && h.SentBy(c, line, w) != []
    ensures var c := ToUpper(CommandLine.Word(line));
            |h.SentBy(c, line, w)| == 1 && ToUpper(CommandLine.Word(h.SentBy(c, line, w)[0])) == c
  {
    hide CommandLine.Sanitize, CommandLine.Word, CommandLine.PlainCommand, ToUpper, ReadLine;
    CommandLine.DispatchAgreesIff(line);
  }

  /** Every command but PROXY and AUTH, and protection levels before login, reaches the origin when it is granted. */
  lemma PassedOnIff(h: ClientHandler, command: string, line: string, w: World)
    requires h.AnswerTo(command, line, w).Nothing?
    ensures h.SentBy(command, line, w) == [] <==>
      command == "PROXY" || command == "AUTH" || (command in ["PBSZ", "PROT"] && !h.proxy.isLoggedin)
  {
    hide CommandLine.Sanitize, SwitchSucceeds, OriginCommand, AddressAnswer, CanListen;
  }

  /** When the whole of switchOrigin succeeds, in terms of what the new origin sends. */
  lemma SwitchSucceedsIff(w: World, proxyProtocol: bool, cmds: seq<string>)
    ensures SwitchSucceeds(w, proxyProtocol, cmds) <==>
      && w.originAddr != "" && w.dialOk && (proxyProtocol ==> w.headerOk) && w.bannerOk
      && w.writable >= |cmds| && TlsReplay.Granted(cmds, proxyProtocol, w.incoming)
  {
    hide TlsReplay.Replay, TlsReplay.Granted;
    TlsReplay.ReplaySucceedsIff(cmds, TlsReplay.Leg(0, [], w.incoming, w.writable), proxyProtocol);
  }
}

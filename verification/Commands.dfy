/** The commands of one client session: the client handler and what each command does to it and to its proxy server. */
module Commands {
  import opened GoStrings
  import opened Options
  import opened Addresses
  import opened DataChannel
  import opened Proxy
  import CommandLine
  import ReplyFraming
  import TlsReplay

  /** What a handler returns: nil, a result that is sent to the client, or a recovered panic that sends nothing. */
  datatype Answer = Nothing | Reply(code: nat) | Panicked

  predicate IsDownload(command: string) {
    command == "RETR" || command == "LIST" || command == "MLSD" || command == "NLST"
  }

  predicate IsTransfer(command: string) {
    IsDownload(command) || command == "STOR" || command == "STOU" || command == "APPE"
  }

  /** The commands whose handlers run with the relay suspended. */
  predicate Suspends(command: string) {
    command == "USER" || command == "AUTH" || command == "PBSZ" || command == "PROT"
  }

  lemma SuspendingIsOther(command: string)
    requires Suspends(command)
    ensures !IsDataCommand(command) && !IsTransfer(command)
  {
  }

  datatype Direction = Download | Upload

  /** What happens in a session between two looks at its state. */
  datatype Event = Command(line: string, world: World) | OriginLine(line: string) | TransferOver | Hangup(closeOk: bool)

  /** sendToOrigin accepts the line and the connection takes it. */
  predicate Sent(line: string, w: World) {
    w.writeOk && CommandLine.Sanitize(line).Some?
  }

  /** The line sendToOrigin writes for a line that it accepts. */
  function OnTheWire(line: string): seq<string> {
    if CommandLine.Sanitize(line).Some? then [CommandLine.Sanitize(line).value] else []
  }

  function AuthAnswer(w: World): Answer {
    if w.tlsConfigured && w.replyOk && w.handshakeOk then Nothing else Reply(550)
  }

  /** getCommand(line)[1], when the line has a second field. */
  function Param(line: string): Option<string> {
    var t := TrimCRLF(line);
    var i := Index(t, ' ');
    if i == -1 then None else Some(t[i + 1..])
  }

  /** The address in a PORT or EPRT command line, None when there is none to be had. */
  function ClientAddress(command: string, line: string): Option<(string, string)>
    requires HasArgument(line)
  {
    if command == "PORT" then ParseLineToAddr(Argument(line))
    else match ParseEPRTtoAddr(Argument(line))
         case EprtAddr(ip, port) => Some((ip, port))
         case _ => None
  }

  /** What handleDATA answers to the address in a command: a line without an argument makes the parser panic. */
  function AddressAnswer(command: string, line: string): Answer {
    if !IsActive(command) then Nothing
    else if !HasArgument(line) then Panicked
    else if ClientAddress(command, line).Some? then Nothing
    else if command == "EPRT" && ParseEPRTtoAddr(Argument(line)).UnknownProtocol? then Reply(522)
    else Reply(501)
  }

  /** The client leg with the address of a PORT or EPRT command. */
  function Addressed(c: Connector, command: string, line: string): Connector {
    if IsActive(command) && HasArgument(line) then WithAddress(c, ClientAddress(command, line), false) else c
  }

  /** The command handleDATA sends to the origin for the client's. */
  function OriginCommand(command: string, mode: string, w: World): string {
    DataMessage(command, mode, w.localIP, OriginLeg(command, mode, w).listener)
  }

  function SendAnswer(command: string, mode: string, w: World): Answer {
    if w.originLost then Reply(425)
    else if Sent(OriginCommand(command, mode, w), w) then Nothing
    else Reply(500)
  }

  /** handleDATA with the data channel proxied, a client logged in and no transfer in progress. */
  function DataAnswer(command: string, line: string, mode: string, w: World): Answer {
    if !CanListen(command, mode, w) then Reply(421)
    else if AddressAnswer(command, line) != Nothing then AddressAnswer(command, line)
    else SendAnswer(command, mode, w)
  }

  class ClientHandler {
    var line: string
    var command: string
    var param: string
    const proxy: ProxyServer
    var controlInTLS: bool
    var transferInTLS: bool
    var previousTLSCommands: seq<string>
    var clientLayers: nat                  // how many TLS connections wrap the client's
    var replies: seq<nat>                  // the codes the handlers themselves have sent
    var transfers: seq<Direction>          // the transfers started

    constructor (proxy: ProxyServer)
      requires proxy.Valid()
      ensures Valid() && this.proxy == proxy
      ensures previousTLSCommands == [] && clientLayers == 0 && replies == [] && transfers == []
      ensures line == command == param == "" && !controlInTLS && !transferInTLS
    {
      line, command, param, this.proxy := "", "", "", proxy;
      controlInTLS, transferInTLS, previousTLSCommands, clientLayers := false, false, [], 0;
      replies, transfers := [], [];
    }

    /** The TLS state of the client leg and the recorded commands tell the same story. */
    ghost predicate TlsParity()
      reads `clientLayers, `previousTLSCommands, `controlInTLS, `transferInTLS
    {
      && clientLayers == TlsReplay.AuthCount(previousTLSCommands)
      && (controlInTLS <==> previousTLSCommands != [])
      && (previousTLSCommands != [] ==> TlsReplay.IsAuth(previousTLSCommands[0]))
      && (transferInTLS ==> controlInTLS)
    }

    /** What holds between two commands; no transfer is started before login. */
    ghost predicate Valid()
      reads `clientLayers, `previousTLSCommands, `controlInTLS, `transferInTLS, `transfers,
        proxy`isLoggedin, proxy`dataConnector, proxy`writer, proxy`handlers, proxy.handlers, proxy.writer
    {
      TlsParity() && proxy.Valid() && (transfers != [] ==> proxy.isLoggedin)
    }

    /**
     What no event of a session undoes: recorded commands and transfers stay, closed handlers stay closed, a login
     stays, and from then on the origin connection is never replaced or wrapped again and its stream only grows.
     */
    twostate predicate Continues()
      reads `previousTLSCommands, `transfers, proxy`isLoggedin, proxy`writer, proxy`originLayers, proxy`handlers,
        proxy.handlers, proxy.writer
    {
      && old(previousTLSCommands) <= previousTLSCommands && old(transfers) <= transfers
      && old(proxy.handlers) <= proxy.handlers && fresh(proxy.handlers - old(proxy.handlers))
      && (forall h :: h in old(proxy.handlers) && old(h.closed) ==> h.closed)
      && (proxy.writer == old(proxy.writer) || fresh(proxy.writer))
      && (old(proxy.isLoggedin) ==>
            && proxy.isLoggedin && proxy.writer == old(proxy.writer) && proxy.originLayers == old(proxy.originLayers)
            && old(proxy.writer.lines) <= proxy.writer.lines)
    }

    ghost function UserAnswer(line: string, w: World): Answer
      reads `previousTLSCommands, proxy`isLoggedin, proxy.config
    {
      if proxy.isLoggedin then Reply(500)
      else if SwitchSucceeds(w, proxy.config.proxyProtocol, previousTLSCommands) && Sent(line, w) then Nothing
      else Reply(530)
    }

    /** PBSZ and PROT */
    ghost function LevelAnswer(line: string, w: World): Answer
      reads `controlInTLS, proxy`isLoggedin
    {
      if !controlInTLS then Reply(503)
      else if !proxy.isLoggedin then (if w.replyOk then Nothing else Reply(550))
      else if Sent(line, w) then Nothing
      else Reply(530)
    }

    /** PORT, EPRT, PASV and EPSV */
    ghost function ChannelAnswer(command: string, line: string, w: World): Answer
      reads proxy`isLoggedin, proxy`dataConnector, proxy.inDataTransfer, proxy.config
    {
      if !proxy.isLoggedin then Reply(530)
      else if !proxy.config.dataChanProxy then (if Sent(line, w) then Nothing else Reply(530))
      else if proxy.Transferring() then Reply(450)
      else DataAnswer(command, line, proxy.config.transferMode, w)
    }

    ghost function TransferAnswer(line: string, w: World): Answer
      reads proxy`isLoggedin, proxy`dataConnector, proxy.dataConnector, proxy.inDataTransfer
    {
      if !proxy.isLoggedin then Reply(530)
      else if !proxy.Available() then Reply(425)
      else if proxy.Transferring() then Reply(450)
      else if Sent(line, w) then Nothing
      else Reply(500)
    }

    /** The answer to a command, from the state before it. */
    ghost function AnswerTo(command: string, line: string, w: World): Answer
      reads `controlInTLS, `previousTLSCommands, proxy`isLoggedin, proxy`dataConnector, proxy.dataConnector,
        proxy.inDataTransfer, proxy.config
    {
      if command == "PROXY" then (if w.proxyLineOk then Nothing else Reply(500))
      else if command == "USER" then UserAnswer(line, w)
      else if command == "AUTH" then AuthAnswer(w)
      else if command == "PBSZ" || command == "PROT" then LevelAnswer(line, w)
      else if IsDataCommand(command) then ChannelAnswer(command, line, w)
      else if IsTransfer(command) then TransferAnswer(line, w)
      else if Sent(line, w) then Nothing
      else Reply(500)
    }

    /** What PBSZ or PROT adds to the recorded commands. */
    ghost function LevelRecorded(line: string, w: World): seq<string>
      reads `controlInTLS, proxy`isLoggedin
    {
      if controlInTLS && !proxy.isLoggedin && w.replyOk then [line] else []
    }

    /** What a command adds to the recorded TLS commands. */
    ghost function RecordedBy(command: string, line: string, w: World): seq<string>
      reads `controlInTLS, proxy`isLoggedin
    {
      if command == "AUTH" then (if AuthAnswer(w).Nothing? then [line] else [])
      else if command == "PBSZ" || command == "PROT" then LevelRecorded(line, w)
      else []
    }

    /** The line that replaces a data command on its way to the origin. */
    ghost function ChannelLine(command: string, line: string, w: World): string
      reads proxy.config
    {
      if proxy.config.dataChanProxy then OriginCommand(command, proxy.config.transferMode, w) else line
    }

    /** The transfer a command starts, also when the origin could not be told of it. */
    ghost function StartedBy(command: string, line: string, w: World): seq<Direction>
      reads proxy`isLoggedin, proxy`dataConnector, proxy.dataConnector, proxy.inDataTransfer
    {
      if IsTransfer(command) then TransferStarted(command, line, w) else []
    }

    ghost function TransferStarted(command: string, line: string, w: World): seq<Direction>
      reads proxy`isLoggedin, proxy`dataConnector, proxy.dataConnector, proxy.inDataTransfer
    {
      var a := TransferAnswer(line, w);
      if a == Nothing || a == Reply(500) then [if IsDownload(command) then Download else Upload] else []
    }

    /** What a command that is answered with nothing has sent to the origin. */
    ghost function SentBy(command: string, line: string, w: World): seq<string>
      reads proxy`isLoggedin, proxy.config
    {
      if command == "PROXY" || command == "AUTH" then []
      else if command == "PBSZ" || command == "PROT" then (if proxy.isLoggedin then OnTheWire(line) else [])
      else if IsDataCommand(command) then OnTheWire(ChannelLine(command, line, w))
      else OnTheWire(line)
    }

    /** parseLine; a line without a second field keeps the parameter of an earlier one. */
    method ParseLine(l: string)
      modifies this`line, this`command, this`param
      ensures line == l && command == ToUpper(CommandLine.Word(l))
      ensures param == if Param(l).Some? then Param(l).value else old(param)
    {
      line, command := l, ToUpper(CommandLine.Word(l));
      if Param(l).Some? {
        param := Param(l).value;
      }
    }

    method HandleAUTH(w: World) returns (a: Answer)
      requires TlsParity() && TlsReplay.IsAuth(line)
      modifies this`replies, this`previousTLSCommands, this`controlInTLS, this`clientLayers
      ensures TlsParity() && Continues()
      ensures a == AuthAnswer(w) && controlInTLS == (old(controlInTLS) || a.Nothing?)
      ensures replies == old(replies) + if w.tlsConfigured && w.replyOk then [234] else []
      ensures previousTLSCommands == old(previousTLSCommands) + if a.Nothing? then [line] else []
      ensures clientLayers == old(clientLayers) + if a.Nothing? then 1 else 0
    {
      hide TlsReplay.IsAuth;
      if !w.tlsConfigured {
        return Reply(550);
      }
      if !w.replyOk {
        return Reply(550);
      }
      replies := replies + [234];
      if !w.handshakeOk {
        return Reply(550);
      }
      TlsReplay.AuthCountAppend(previousTLSCommands, line);
      clientLayers, previousTLSCommands, controlInTLS := clientLayers + 1, previousTLSCommands + [line], true;
      return Nothing;
    }

    /** The common part of PBSZ and PROT: answered and recorded before login, passed on after it. */
    method RecordOrForward(code: nat, w: World) returns (a: Answer)
      requires Valid() && controlInTLS && !TlsReplay.IsAuth(line)
      modifies this`replies, this`previousTLSCommands, proxy`passThrough, proxy.writer
      ensures Valid() && Continues()
      ensures !proxy.isLoggedin ==>
        && a == (if w.replyOk then Nothing else Reply(550))
        && replies == old(replies) + (if w.replyOk then [code] else [])
        && previousTLSCommands == old(previousTLSCommands) + (if w.replyOk then [line] else [])
        && proxy.passThrough == old(proxy.passThrough) && proxy.writer.lines == old(proxy.writer.lines)
      ensures proxy.isLoggedin ==>
        && a == (if Sent(line, w) then Nothing else Reply(530))
        && replies == old(replies) && previousTLSCommands == old(previousTLSCommands) && proxy.passThrough
        && proxy.writer.lines == old(proxy.writer.lines) + if a.Nothing? then OnTheWire(line) else []
    {
      hide CommandLine.Sanitize, TlsReplay.IsAuth, ProxyServer.Valid;
      if !proxy.isLoggedin {
        if !w.replyOk {
          return Reply(550);
        }
        TlsReplay.AuthCountAppend(previousTLSCommands, line);
        replies, previousTLSCommands := replies + [code], previousTLSCommands + [line];
        return Nothing;
      }
      proxy.passThrough := true;
      var ok := proxy.SendToOrigin(line, w.writeOk);
      return if ok then Nothing else Reply(530);
    }

    method HandlePBSZ(w: World) returns (a: Answer)
      requires Valid() && !TlsReplay.IsAuth(line)
      modifies this`replies, this`previousTLSCommands, proxy`passThrough, proxy.writer
      ensures Valid() && Continues()
      ensures a == old(LevelAnswer(line, w))
      ensures replies == old(replies + if LevelRecorded(line, w) == [] then [] else [200])
      ensures previousTLSCommands == old(previousTLSCommands + LevelRecorded(line, w))
      ensures proxy.writer.lines == old(proxy.writer.lines)
        + if a.Nothing? && proxy.isLoggedin then OnTheWire(line) else []
    {
      hide CommandLine.Sanitize, TlsReplay.IsAuth, ProxyServer.Valid;
      if !controlInTLS {
        return Reply(503);
      }
      a := RecordOrForward(200, w);
    }

    /** A level other than C and P is refused with 534 and recorded all the same. */
    method HandlePROT(w: World) returns (a: Answer)
      requires Valid() && !TlsReplay.IsAuth(line)
      modifies this`replies, this`previousTLSCommands, this`transferInTLS, proxy`passThrough, proxy.writer
      ensures Valid() && Continues()
      ensures a == old(LevelAnswer(line, w))
      ensures transferInTLS == if a.Nothing? then param == "P" else old(transferInTLS)
      ensures replies == old(replies + if LevelRecorded(line, w) == [] then []
                                       else [if param == "C" || param == "P" then 200 else 534])
      ensures previousTLSCommands == old(previousTLSCommands + LevelRecorded(line, w))
      ensures proxy.writer.lines == old(proxy.writer.lines)
        + if a.Nothing? && proxy.isLoggedin then OnTheWire(line) else []
    {
      hide CommandLine.Sanitize, TlsReplay.IsAuth, ProxyServer.Valid;
      if !controlInTLS {
        return Reply(503);
      }
      a := RecordOrForward(if param == "C" || param == "P" then 200 else 534, w);
      if a.Nothing? {
        transferInTLS := param == "P";
      }
    }

    /**
     After a successful switch the new origin connection is wrapped in TLS exactly as often as the client's, so
     one is in TLS if and only if the other is.
     */
    method HandleUSER(w: World) returns (a: Answer)
      requires Valid()
      modifies proxy`passThrough, proxy`writer, proxy`originLayers, proxy.writer, proxy.handlers, proxy.inDataTransfer
      ensures Valid() && Continues() && unchanged(proxy.handlers) && unchanged(proxy.inDataTransfer)
      ensures a == old(UserAnswer(line, w))
      ensures proxy.isLoggedin ==> unchanged(proxy) && unchanged(proxy.writer)
      ensures a.Nothing? ==> proxy.writer.lines == OnTheWire(line) && proxy.originLayers == clientLayers
      ensures !proxy.isLoggedin && SwitchSucceeds(w, proxy.config.proxyProtocol, previousTLSCommands) ==>
        && proxy.originLayers == clientLayers && (proxy.originLayers > 0 <==> controlInTLS) && proxy.passThrough
        && proxy.writer.lines == if a == Nothing then OnTheWire(line) else []
    {
      hide CommandLine.Sanitize, SwitchSucceeds, TlsReplay.IsAuth;
      if proxy.isLoggedin {
        return Reply(500);
      }
      var switched := proxy.SwitchOrigin(w, previousTLSCommands);
      if !switched {
        return Reply(530);
      }
      TlsReplay.AuthMeansLayer(previousTLSCommands);
      proxy.passThrough := true;
      var ok := proxy.SendToOrigin(line, w.writeOk);
      assert proxy.writer.lines == if ok then OnTheWire(line) else [];
      return if ok then Nothing else Reply(530);
    }

    /** The switch of handleDATA: the address a PORT or EPRT command gives. */
    method LearnClientAddress() returns (a: Answer)
      requires proxy.Valid() && proxy.dataConnector != null && !proxy.dataConnector.closed
      modifies proxy.handlers, proxy.inDataTransfer
      ensures proxy.Valid() && a == AddressAnswer(command, line)
      ensures a.Reply? ==> proxy.dataConnector.closed
      ensures !a.Reply? ==>
        && !proxy.dataConnector.closed && proxy.dataConnector.originConn == old(proxy.dataConnector.originConn)
        && proxy.dataConnector.clientConn == Addressed(old(proxy.dataConnector.clientConn), command, line)
      ensures forall h :: h in proxy.handlers && h != proxy.dataConnector ==> unchanged(h)
    {
      if command == "PORT" {
        if !HasArgument(line) {
          return Panicked;
        }
        var ok := proxy.dataConnector.ParsePORTcommand(line);
        if !ok {
          proxy.dataConnector.Close();
          return Reply(501);
        }
      } else if command == "EPRT" {
        if !HasArgument(line) {
          return Panicked;
        }
        var addr := proxy.dataConnector.ParseEPRTcommand(line);
        if !addr.EprtAddr? {
          proxy.dataConnector.Close();
          return Reply(if addr.UnknownProtocol? then 522 else 501);
        }
      }
      return Nothing;
    }

    /** The end of handleDATA: the command for the origin, unless the relay loop has closed the handler meanwhile. */
    method SendDataCommand(w: World) returns (a: Answer)
      requires proxy.Valid() && proxy.dataConnector != null && !proxy.dataConnector.closed
      requires CanListen(command, proxy.config.transferMode, w)
      requires proxy.dataConnector.originConn == OriginLeg(command, proxy.config.transferMode, w)
      modifies proxy.handlers, proxy.inDataTransfer, proxy.writer
      ensures proxy.Valid() && a == SendAnswer(command, proxy.config.transferMode, w)
      ensures proxy.writer.lines == old(proxy.writer.lines)
        + if a.Nothing? then OnTheWire(OriginCommand(command, proxy.config.transferMode, w)) else []
      ensures proxy.dataConnector.closed <==> !a.Nothing?
      ensures a.Nothing? ==> unchanged(proxy.handlers)
      ensures forall h :: h in proxy.handlers && h != proxy.dataConnector ==> unchanged(h)
    {
      hide DataMessage, CommandLine.Sanitize;
      if w.originLost {
        proxy.DestroyDataHandler();
      }
      if !proxy.Available() {
        return Reply(425);
      }
      var origin := proxy.dataConnector.originConn;
      var listener := if origin.needsListen then origin.listener else None;
      var ok := proxy.SendToOrigin(DataMessage(command, proxy.config.transferMode, w.localIP, listener), w.writeOk);
      if !ok {
        proxy.dataConnector.Close();
        return Reply(500);
      }
      return Nothing;
    }

    /** handleDATA from the point where a data handler has been attached. */
    method NegotiateData(w: World) returns (a: Answer)
      requires Valid() && proxy.dataConnector != null && !proxy.dataConnector.closed
      requires CanListen(command, proxy.config.transferMode, w)
      requires proxy.dataConnector.clientConn == ClientLeg(command, proxy.config.transferMode, w)
      requires proxy.dataConnector.originConn == OriginLeg(command, proxy.config.transferMode, w)
      modifies proxy.handlers, proxy.inDataTransfer, proxy.writer
      ensures Valid()
      ensures a == DataAnswer(command, line, proxy.config.transferMode, w)
      ensures proxy.writer.lines == old(proxy.writer.lines)
        + if a.Nothing? then OnTheWire(OriginCommand(command, proxy.config.transferMode, w)) else []
      ensures proxy.dataConnector.closed <==> a.Reply?
      ensures !a.Reply? ==>
        && proxy.dataConnector.clientConn == Addressed(ClientLeg(command, proxy.config.transferMode, w), command, line)
        && proxy.dataConnector.originConn == OriginLeg(command, proxy.config.transferMode, w)
      ensures forall h :: h in proxy.handlers && h != proxy.dataConnector ==> unchanged(h)
    {
      hide AddressAnswer, Addressed, OriginCommand, CanListen;
      a := LearnClientAddress();
      if !a.Nothing? {
        return;
      }
      a := SendDataCommand(w);
    }

    /**
     handleDATA. A command the origin was told of leaves a new, open handler in the client's mode and the
     configured one, and every earlier handler closed.
     */
    method HandleDATA(w: World) returns (a: Answer)
      requires Valid() && IsDataCommand(command)
      modifies proxy`dataConnector, proxy`handlers, proxy.handlers, proxy.inDataTransfer, proxy.writer
      ensures Valid() && Continues()
      ensures a == old(ChannelAnswer(command, line, w))
      ensures !(proxy.isLoggedin && proxy.config.dataChanProxy) || old(proxy.Transferring()) ==>
        unchanged(proxy`dataConnector, proxy`handlers, proxy.inDataTransfer) && unchanged(old(proxy.handlers))
      ensures proxy.writer.lines == old(proxy.writer.lines)
        + if a.Nothing? then OnTheWire(ChannelLine(command, line, w)) else []
      ensures a.Nothing? && proxy.config.dataChanProxy ==>
        && proxy.Available() && fresh(proxy.dataConnector)
        && (forall h :: h in old(proxy.handlers) ==> h.closed)
        && proxy.dataConnector.clientConn == Addressed(ClientLeg(command, proxy.config.transferMode, w), command, line)
        && proxy.dataConnector.originConn == OriginLeg(command, proxy.config.transferMode, w)
    {
      hide DataMessage, OriginCommand, Addressed, ClientLeg, OriginLeg, CommandLine.Sanitize, SendAnswer, CanListen,
        IsDataCommand, AddressAnswer, ProxyServer.Valid, TlsParity;
      if !proxy.isLoggedin {
        return Reply(530);
      }
      if !proxy.config.dataChanProxy {
        var forwarded := proxy.SendToOrigin(line, w.writeOk);
        return if forwarded then Nothing else Reply(530);
      }
      if proxy.Transferring() {
        return Reply(450);
      }
      var attached := proxy.AttachDataHandler(command, w);
      if !attached {
        return Reply(421);
      }
      a := NegotiateData(w);
    }

    /** handleTransfer; the transfer is started before the origin hears of it. */
    method HandleTransfer(w: World) returns (a: Answer)
      requires Valid() && IsTransfer(command)
      modifies this`transfers, proxy.writer
      ensures Valid() && Continues()
      ensures a == old(TransferAnswer(line, w))
      ensures transfers == old(transfers + TransferStarted(command, line, w))
      ensures proxy.writer.lines == old(proxy.writer.lines) + if a.Nothing? then OnTheWire(line) else []
    {
      hide CommandLine.Sanitize, IsDownload, IsTransfer, ProxyServer.Valid, TlsParity;
      if !proxy.isLoggedin {
        return Reply(530);
      }
      if !proxy.Available() {
        return Reply(425);
      }
      if proxy.Transferring() {
        return Reply(450);
      }
      transfers := transfers + [if IsDownload(command) then Download else Upload];
      var ok := proxy.SendToOrigin(line, w.writeOk);
      return if ok then Nothing else Reply(500);
    }

    /** The current command was answered with `a`: what it recorded, what it sent, and what became of TLS. */
    twostate predicate Performed(w: World, a: Answer)
      reads this, proxy, proxy.config, proxy.writer
    {
      var c, l := command, line;
      && a == old(AnswerTo(c, l, w))
      && previousTLSCommands == old(previousTLSCommands + RecordedBy(c, l, w))
      && controlInTLS == (old(controlInTLS) || (c == "AUTH" && a.Nothing?))
      && transferInTLS == (if c == "PROT" && a.Nothing? then param == "P" else old(transferInTLS))
      && transfers == old(transfers + StartedBy(c, l, w))
      && (c != "USER" ==> proxy.writer.lines == old(proxy.writer.lines) + if a.Nothing? then SentBy(c, l, w) else [])
      && (c == "USER" && a.Nothing? ==> proxy.writer.lines == SentBy(c, l, w) && proxy.originLayers == clientLayers)
    }

    /** The functions registered for the commands that suspend the relay. */
    method DispatchSuspended(w: World) returns (a: Answer)
      requires Valid() && command == ToUpper(CommandLine.Word(line)) && Suspends(command)
      modifies this`replies, this`previousTLSCommands, this`controlInTLS, this`transferInTLS, this`clientLayers,
        proxy`passThrough, proxy`writer, proxy`originLayers, proxy.handlers, proxy.inDataTransfer, proxy.writer
      ensures Valid() && Continues() && Performed(w, a)
    {
      hide CommandLine.Sanitize, CommandLine.Word, OnTheWire, UserAnswer, AuthAnswer, LevelAnswer, LevelRecorded,
        ToUpper, SwitchSucceeds, TransferStarted, TransferAnswer, ChannelAnswer, ProxyServer.Valid, TlsParity;
      hide IsDataCommand, IsTransfer;
      SuspendingIsOther(command);
      if command == "USER" {
        a := HandleUSER(w);
      } else if command == "AUTH" {
        a := HandleAUTH(w);
      } else if command == "PBSZ" {
        a := HandlePBSZ(w);
      } else {
        a := HandlePROT(w);
      }
    }

    /** The function registered for any other command, or sendToOrigin if there is none. */
    method Dispatch(w: World) returns (a: Answer)
      requires Valid() && !Suspends(command)
      modifies this`transfers, proxy`dataConnector, proxy`handlers, proxy.handlers, proxy.inDataTransfer, proxy.writer
      ensures Valid() && Continues() && Performed(w, a)
    {
      hide CommandLine.Sanitize, ChannelAnswer, TransferAnswer, TransferStarted, ChannelLine, Addressed;
      hide ProxyServer.Valid, TlsParity;
      if command == "PROXY" {
        return if w.proxyLineOk then Nothing else Reply(500);
      } else if IsDataCommand(command) {
        a := HandleDATA(w);
      } else if IsTransfer(command) {
        a := HandleTransfer(w);
      } else {
        var ok := proxy.SendToOrigin(line, w.writeOk);
        return if ok then Nothing else Reply(500);
      }
    }

    /** The registered function, between suspend and unsuspend where its command asks for it. */
    method Perform(w: World) returns (a: Answer)
      requires Valid() && command == ToUpper(CommandLine.Word(line))
      modifies this`replies, this`transfers, this`previousTLSCommands, this`controlInTLS, this`transferInTLS,
        this`clientLayers, proxy`passThrough, proxy`writer, proxy`originLayers, proxy`dataConnector, proxy`handlers,
        proxy.handlers, proxy.inDataTransfer, proxy.writer
      ensures Valid() && Continues() && Performed(w, a)
      ensures proxy.passThrough == (old(proxy.passThrough) || Suspends(command))
    {
      hide CommandLine.Sanitize, CommandLine.Word, ProxyServer.Valid, TlsParity, UserAnswer, LevelAnswer, ChannelAnswer,
        TransferAnswer, OnTheWire, IsDataCommand, IsTransfer, ChannelLine, LevelRecorded;
      if !Suspends(command) {
        a := Dispatch(w);
      } else {
        proxy.passThrough := false;
        a := DispatchSuspended(w);
        proxy.passThrough := true;
      }
    }

    /** handleCommand; a command that suspends the relay always resumes it, whatever its outcome. */
    method HandleCommand(l: string, w: World) returns (a: Answer)
      requires Valid()
      modifies this, proxy`passThrough, proxy`writer, proxy`originLayers, proxy`dataConnector, proxy`handlers,
        proxy.handlers, proxy.inDataTransfer, proxy.writer
      ensures Valid() && Continues()
      ensures line == l && command == ToUpper(CommandLine.Word(l))
      ensures param == if Param(l).Some? then Param(l).value else old(param)
      ensures proxy.passThrough == (old(proxy.passThrough) || (w.middlewareOk && Suspends(command)))
      ensures w.middlewareOk ==> Performed(w, a)
      ensures !w.middlewareOk ==>
        a == Reply(500) && unchanged(proxy) && unchanged(proxy.writer) && unchanged(proxy.handlers)
    {
      hide CommandLine.Sanitize, CommandLine.Word, ProxyServer.Valid, TlsParity, Param, Sent, Suspends, ToUpper,
        UserAnswer, LevelAnswer, ChannelAnswer, TransferAnswer, OnTheWire, IsDataCommand, IsTransfer;
      ParseLine(l);
      if !w.middlewareOk {
        return Reply(500);
      }
      a := Perform(w);
    }

    /**
     A session, one event at a time, in any order: the commands of the loop in readClientCommands, the lines its
     reader receives, the ends of its transfers, and the Close of the proxy when either loop ends.
     */
    method Run(events: seq<Event>)
      requires Valid()
      modifies this, proxy`passThrough, proxy`writer, proxy`originLayers, proxy`dataConnector, proxy`handlers,
        proxy`isLoggedin, proxy.handlers, proxy.inDataTransfer, proxy.writer
      ensures Valid() && Continues()
    {
      hide CommandLine.Sanitize, CommandLine.Word, CommandLine.OriginWriter.Valid, DataHandler.Coherent, TlsParity;
      hide ToUpper, Suspends, Crashes, Performed, RewrittenReply, Sent, Learnt, Param, IsDataAnswer;
      hide ReplyFraming.Greeted, ReplyFraming.LoginAfter, ReplyFraming.Skipped;
      for i := 0 to |events|
        invariant Valid() && Continues()
      {
        match events[i]
        case Command(line, world) =>
          var _ := HandleCommand(line, world);
        case OriginLine(line) =>
          var out := proxy.ReceiveLine(line);
          if out.Crash? {
            return;
          }
        case TransferOver =>
          if proxy.dataConnector != null {
            proxy.TransferEnds(proxy.dataConnector);
          }
        case Hangup(closeOk) =>
          proxy.Close(closeOk);
      }
    }
  }
  // ---------------------------------------------------------------- which lines reach a handler

  /** Dispatch knows a command only if its line names it plainly. */
  lemma KnownIsPlain(line: string)
    requires IsHandled(ToUpper(CommandLine.Word(line)))
    ensures CommandLine.PlainCommand(line)
  {
    var w := CommandLine.Word(line);
    HandledIsLetters(ToUpper(w));
    assert forall i :: 0 <= i < |w| ==> ToUpper(w)[i] == UpperChar(w[i]);
    CommandLine.UpperKeepsLetters(w[0]);
    assert TrimCRLF(line)[0] == w[0];
  }

  predicate IsHandled(command: string) {
    command == "PROXY" || Suspends(command) || IsDataCommand(command) || IsTransfer(command)
  }

  lemma HandledIsLetters(command: string)
    requires IsHandled(command)
    ensures command != [] && forall i :: 0 <= i < |command| ==> IsLetter(command[i])
  {
  }

  /**
   Before login the handlers keep data and transfer commands from the origin. They do so exactly for the lines
   that name the command plainly: of any other line that the origin reads as such a command, dispatch sees no
   command it knows, and passes it on.
   */
  lemma LoginGuardIff(h: ClientHandler, line: string, w: World)
    requires !h.proxy.isLoggedin && ReadLine(line) && CommandLine.Sanitize(line).Some?
    requires var read := ToUpper(CommandLine.Word(CommandLine.Sanitize(line).value));
             IsDataCommand(read) || IsTransfer(read)
    ensures h.AnswerTo(ToUpper(CommandLine.Word(line)), line, w) == Reply(530) <==> CommandLine.PlainCommand(line)
    ensures !CommandLine.PlainCommand(line) ==>
      h.SentBy(ToUpper(CommandLine.Word(line)), line, w) == [CommandLine.Sanitize(line).value]
  {
    hide CommandLine.Sanitize, CommandLine.Word, CommandLine.PlainCommand, ToUpper;
    CommandLine.DispatchAgreesIff(line);
    if !CommandLine.PlainCommand(line) && IsHandled(ToUpper(CommandLine.Word(line))) {
      KnownIsPlain(line);
    }
  }

  // ---------------------------------------------------------------- lines without an argument

  /** A line keeps the earlier parameter exactly when it holds no space; else word, space and parameter make it up. */
  lemma ParamIff(line: string)
    ensures Param(line).None? <==> ' ' !in TrimCRLF(line)
    ensures Param(line).Some? ==> CommandLine.Word(line) + " " + Param(line).value == TrimCRLF(line)
  {
    var t := TrimCRLF(line);
    var i := Index(t, ' ');
    assert i >= 0 ==> t == t[..i] + [t[i]] + t[i + 1..];
  }

  /** A parser of PORT or EPRT finds an argument exactly when the line holds a space; without one it panics. */
  lemma HasArgumentIff(line: string)
    ensures HasArgument(line) <==> ' ' in TrimCRLF(line)
  {
    var t := TrimCRLF(line);
    if ' ' !in t {
      SplitWhole(t, ' ');
    } else if |Split(t, ' ')| == 1 {
      JoinSplit(t, ' ');
      FieldsAreFree(t, ' ', Split(t, ' ')[0]);
    }
  }

  lemma BareLine(word: string)
    requires word != [] && forall i :: 0 <= i < |word| ==> IsLetter(word[i])
    ensures TrimCRLF(word + "\r\n") == word && CommandLine.Word(word + "\r\n") == word
  {
    assert (word + "\r\n")[0] == word[0];
    TrimRightAll(word, "\r\n", IsCRLF);
  }

  lemma BarePort()
    ensures ToUpper(CommandLine.Word("PORT\r\n")) == "PORT" && AddressAnswer("PORT", "PORT\r\n") == Panicked
  {
    hide HasArgument, TrimCRLF;
    BareLine("PORT");
    assert "PORT" + "\r\n" == "PORT\r\n";
    HasArgumentIff("PORT\r\n");
  }

  /** PORT without an argument, where the data channel is proxied, panics once its handler listens. */
  method BarePortPanics(h: ClientHandler, w: World) returns (a: Answer)
    requires h.Valid() && h.proxy.isLoggedin && h.proxy.config.dataChanProxy && !h.proxy.Transferring()
    requires w.middlewareOk && CanListen("PORT", h.proxy.config.transferMode, w)
    modifies h, h.proxy`passThrough, h.proxy`writer, h.proxy`originLayers, h.proxy`dataConnector, h.proxy`handlers,
      h.proxy.handlers, h.proxy.inDataTransfer, h.proxy.writer
    ensures h.Valid() && a == Panicked && h.proxy.writer.lines == old(h.proxy.writer.lines)
  {
    hide ProxyServer.Valid, CommandLine.Sanitize, CommandLine.Word, Param, ToUpper, AddressAnswer, CanListen;
    BarePort();
    a := h.HandleCommand("PORT\r\n", w);
  }

  /** PROT without a parameter right after USER P takes the user's name for the protection level. */
  method LevelOfEarlierLine(h: ClientHandler, user: World, w: World)
    requires h.Valid() && h.controlInTLS && !h.proxy.isLoggedin && w.middlewareOk && w.replyOk
    modifies h, h.proxy`passThrough, h.proxy`writer, h.proxy`originLayers, h.proxy`dataConnector, h.proxy`handlers,
      h.proxy.handlers, h.proxy.inDataTransfer, h.proxy.writer
    ensures h.Valid() && h.transferInTLS
  {
    hide ProxyServer.Valid, CommandLine.Sanitize, CommandLine.Word, Param, ToUpper, SwitchSucceeds;
    NameIsKept();
    var _ := h.HandleCommand("USER P\r\n", user);
    var _ := h.HandleCommand("PROT\r\n", w);
  }

  lemma NameIsKept()
    ensures ToUpper(CommandLine.Word("USER P\r\n")) == "USER" && Param("USER P\r\n") == Some("P")
    ensures ToUpper(CommandLine.Word("PROT\r\n")) == "PROT" && Param("PROT\r\n").None?
  {
    hide TrimCRLF;
    BareLine("PROT");
    assert "PROT" + "\r\n" == "PROT\r\n";
    TrimmedUser();
    IndexIs("USER P", ' ', 4);
  }

  lemma TrimmedUser()
    ensures TrimCRLF("USER P\r\n") == "USER P"
  {
    assert "USER P" + "\r\n" == "USER P\r\n";
    TrimRightAll("USER P", "\r\n", IsCRLF);
  }
}

/**
 The proxy server of one client session, shared by the command loop and the reader, and the data handlers it
 owns. Calls to the outside take their answers from a World.
 */
module Proxy {
  import opened GoStrings
  import opened Options
  import opened Addresses
  import opened Configuration
  import opened DataChannel
  import CommandLine
  import ReplyFraming
  import TlsReplay

  /** What the environment answers while one command is handled. */
  datatype World = World(
    middlewareOk: bool,              // the middleware of the command returned nil
    replyOk: bool,                   // a reply written by a handler itself reaches the client
    writeOk: bool,                   // a command written to the origin is taken
    tlsConfigured: bool, handshakeOk: bool,
    originAddr: string,              // context.RemoteAddr, as the middleware may have set it
    proxyLineOk: bool,               // handlePROXY could parse its line
    closeOk: bool,                   // closing the old origin connection reports no error
    dialOk: bool, headerOk: bool, bannerOk: bool,
    incoming: seq<TlsReplay.Incoming>, writable: nat,
    clientPort: Option<nat>, originPort: Option<nat>,
    originLost: bool,                // the relay loop closes the proxy after a data handler was attached
    localIP: string, clientPeer: string, originPeer: string)

  predicate IsDataCommand(command: string) {
    IsActive(command) || IsPassive(command)
  }

  /** Every step of switchOrigin after its login check succeeds. */
  predicate SwitchSucceeds(w: World, proxyProtocol: bool, cmds: seq<string>) {
    && w.originAddr != "" && w.dialOk && (proxyProtocol ==> w.headerOk) && w.bannerOk
    && var start := TlsReplay.Leg(0, [], w.incoming, w.writable);
       TlsReplay.Replay(cmds, start, proxyProtocol, false).1 == TlsReplay.Finished(false)
  }

  /** newDataHandler gets a listener on every leg that needs one. */
  predicate CanListen(command: string, mode: string, w: World) {
    && (CheckNeedListen(command, mode, true) ==> w.clientPort.Some?)
    && (CheckNeedListen(command, mode, false) ==> w.originPort.Some?)
  }

  /** The client leg of a new data handler. */
  function ClientLeg(command: string, mode: string, w: World): Connector {
    Listening(FreshLeg(w.clientPeer, command), CheckNeedListen(command, mode, true), w.clientPort)
  }

  /** The origin leg of a new data handler. */
  function OriginLeg(command: string, mode: string, w: World): Connector {
    Listening(FreshLeg(w.originPeer, mode), CheckNeedListen(command, mode, false), w.originPort)
  }

  // ---------------------------------------------------------------- messages about data connections

  /** The command handleDATA sends for the client's; the port is that of the origin-side listener, if there is one. */
  function DataMessage(command: string, mode: string, localIP: string, listener: Option<nat>): string {
    if listener.Some? then "PORT " + PrintAddr(localIP, listener.value) + "\r\n"
    else if mode == "CLIENT" then command + "\r\n"
    else mode + "\r\n"
  }

  /** The reply that stands for the origin's own answer, in the mode the client asked for. */
  function OwnReply(mode: string, masqueradeIP: string, port: nat): string {
    if IsActive(mode) then "200 " + mode + " command successful\r\n"
    else if mode == "PASV" then PasvReply(masqueradeIP, port)
    else EpsvReply(port)
  }

  const UNAVAILABLE := "425 Can't open data connection\r\n"

  predicate IsPasvAnswer(buff: string) { "227 " <= buff }

  predicate IsEpsvAnswer(buff: string) { "229 " <= buff }

  predicate IsDataAnswer(buff: string) {
    IsPasvAnswer(buff) || IsEpsvAnswer(buff) || "200 PORT command successful" <= buff
  }

  /** A reply line as it goes on to the client, a line that is skipped, or the crash of the reader goroutine. */
  datatype Rewritten = Line(text: string) | Skip | Crash

  /** Without a handler the reader crashes on any 227 with parentheses and any 229 with a usable port. */
  predicate CrashesWithout(buff: string) {
    || (IsPasvAnswer(buff) && Index(buff, '(') >= 0 && LastIndex(buff, ')') >= 0)
    || (IsEpsvAnswer(buff) && (!Sliceable(buff) || (Between(buff).Some? && ParseEpsvPort(Between(buff).value).Some?)))
  }

  lemma OneAnswer(buff: string)
    ensures !(IsPasvAnswer(buff) && IsEpsvAnswer(buff))
    ensures IsPasvAnswer(buff) || IsEpsvAnswer(buff) ==> !("150 " <= buff) && !("226 " <= buff)
  {
    assert IsPasvAnswer(buff) ==> buff[2] == '7';
    assert IsEpsvAnswer(buff) ==> buff[2] == '9';
  }

  predicate Crashes(buff: string, handled: bool) {
    if handled then (IsPasvAnswer(buff) || IsEpsvAnswer(buff)) && !Sliceable(buff) else CrashesWithout(buff)
  }

  /** The origin leg after a reply of the origin. */
  function Learnt(c: Connector, buff: string, ignorePassiveIP: bool): Connector {
    if !Sliceable(buff) then c
    else if IsPasvAnswer(buff) then AfterPasv(c, buff, ignorePassiveIP)
    else if IsEpsvAnswer(buff) then AfterEpsv(c, buff)
    else c
  }

  lemma OrdinaryReply(c: Connector, buff: string, ignorePassiveIP: bool)
    requires !IsPasvAnswer(buff) && !IsEpsvAnswer(buff)
    ensures !CrashesWithout(buff) && Learnt(c, buff, ignorePassiveIP) == c
  {
  }

  /** What the client reads for a reply of the origin that is not a crash. */
  function RewrittenReply(buff: string, h: DataHandler?, masqueradeIP: string): string
    reads h
  {
    if !IsDataAnswer(buff) then buff
    else if h == null || h.closed then UNAVAILABLE
    else if IsActive(h.clientConn.mode) then OwnReply(h.clientConn.mode, masqueradeIP, 0)
    else if IsPassive(h.clientConn.mode) && h.clientConn.listener.Some? then
      OwnReply(h.clientConn.mode, masqueradeIP, h.clientConn.listener.value)
    else buff
  }

  class ProxyServer {
    var isLoggedin: bool
    var passThrough: bool
    var dataConnector: DataHandler?
    const inDataTransfer: Flag
    const config: Config
    const welcomeMsg: string
    var writer: CommandLine.OriginWriter   // what sendToOrigin has written on the current origin connection
    var originLayers: nat                  // how many TLS connections wrap it
    ghost var handlers: set<DataHandler>   // every handler ever created in the session

    /** At most one handler of the session is open, it is the current one, and none is created before login. */
    ghost predicate Valid()
      reads `isLoggedin, `dataConnector, `writer, `handlers, handlers, writer
    {
      && writer.Valid()
      && (dataConnector != null ==> dataConnector in handlers)
      && forall h :: h in handlers ==>
           isLoggedin && h.Coherent() && h.inDataTransfer == inDataTransfer && (!h.closed ==> h == dataConnector)
    }

    constructor (config: Config, welcome: string, flag: Flag)
      ensures Valid() && !isLoggedin && passThrough && dataConnector == null && handlers == {} && originLayers == 0
      ensures this.config == config && welcomeMsg == welcome && inDataTransfer == flag
      ensures fresh(writer) && writer.lines == []
    {
      isLoggedin, passThrough, dataConnector, handlers := false, true, null, {};
      this.config, welcomeMsg, inDataTransfer, originLayers := config, welcome, flag, 0;
      writer := new CommandLine.OriginWriter();
    }

    /** isDataHandlerAvailable */
    predicate Available()
      reads `dataConnector, dataConnector
    {
      dataConnector != null && !dataConnector.closed
    }

    /** isDataTransferStarted */
    predicate Transferring()
      reads `dataConnector, inDataTransfer
    {
      dataConnector != null && inDataTransfer.on
    }

    method DestroyDataHandler()
      requires Valid()
      modifies handlers, inDataTransfer
      ensures Valid() && forall h :: h in handlers ==> h.closed
      ensures dataConnector == null ==> unchanged(handlers) && unchanged(inDataTransfer)
      ensures forall h :: h in handlers && h != dataConnector ==> unchanged(h)
    {
      if dataConnector != null {
        dataConnector.Close();
      }
    }

    /** Close; the data handler is destroyed only if the origin connection closes without an error. */
    method Close(originClosed: bool)
      requires Valid()
      modifies handlers, inDataTransfer
      ensures Valid()
      ensures originClosed ==> forall h :: h in handlers ==> h.closed
      ensures !originClosed || dataConnector == null ==> unchanged(handlers) && unchanged(inDataTransfer)
      ensures forall h :: h in handlers && old(h.closed) ==> h.closed
    {
      if originClosed && dataConnector != null {
        DestroyDataHandler();
      }
    }

    /** SetDataHandler: the previous handler is closed before the new one takes its place. */
    method SetDataHandler(handler: DataHandler)
      requires Valid() && isLoggedin && handler !in handlers
      requires handler.Coherent() && handler.inDataTransfer == inDataTransfer
      modifies this`dataConnector, this`handlers, handlers, inDataTransfer
      ensures Valid() && dataConnector == handler && handlers == old(handlers) + {handler}
      ensures forall h :: h in old(handlers) ==> h.closed
      ensures unchanged(handler)
    {
      if dataConnector != null {
        DestroyDataHandler();
      }
      dataConnector, handlers := handler, handlers + {handler};
    }

    /** Any handler may be closed at any moment by the goroutine that runs its transfer. */
    method TransferEnds(handler: DataHandler)
      requires Valid() && handler in handlers
      modifies handlers, inDataTransfer
      ensures Valid() && handler.closed && forall h :: h in handlers && h != handler ==> unchanged(h)
    {
      handler.Close();
    }

    /** The passive replies of the origin: the current handler learns the address, or the reader crashes. */
    method LearnAddress(buff: string) returns (crashed: bool)
      requires Valid() && (IsPasvAnswer(buff) || IsEpsvAnswer(buff))
      modifies handlers
      ensures Valid()
      ensures crashed <==> Crashes(buff, dataConnector != null)
      ensures forall h :: h in handlers && (crashed || h != dataConnector) ==> unchanged(h)
      ensures !crashed && dataConnector != null ==>
        && dataConnector.originConn == Learnt(old(dataConnector.originConn), buff, config.ignorePassiveIP)
        && unchanged(dataConnector`closed, dataConnector`clientConn, dataConnector`released)
    {
      OneAnswer(buff);
      hide IsPasvAnswer, IsEpsvAnswer, AfterPasv, AfterEpsv, Sliceable, CrashesWithout;
      if dataConnector == null {
        return CrashesWithout(buff);
      }
      if !Sliceable(buff) {
        return true;
      }
      if IsPasvAnswer(buff) {
        var _ := dataConnector.ParsePASVresponse(buff, config.ignorePassiveIP);
      }
      if IsEpsvAnswer(buff) {
        var _ := dataConnector.ParseEPSVresponse(buff);
      }
      return false;
    }

    /** The end of the data-channel part: the answer to a data command becomes the answer to the client's own. */
    method AnswerInOwnMode(buff: string) returns (text: string)
      requires Valid()
      ensures text == RewrittenReply(buff, dataConnector, config.masqueradeIP)
    {
      hide PasvReply, EpsvReply, IsDataAnswer;
      if !IsDataAnswer(buff) {
        return buff;
      }
      if dataConnector == null || dataConnector.closed {
        return UNAVAILABLE;
      }
      var mode := dataConnector.clientConn.mode;
      if mode == "PORT" || mode == "EPRT" {
        return "200 " + mode + " command successful\r\n";
      } else if mode == "PASV" {
        return PasvReply(config.masqueradeIP, dataConnector.clientConn.listener.value);
      } else if mode == "EPSV" {
        return EpsvReply(dataConnector.clientConn.listener.value);
      }
      return buff;
    }

    /**
     The data-channel part of the reader's loop: the address in a passive reply is learnt, transfers are
     flagged by 150 and 226, and an answer to a data command becomes the answer to the client's own.
     */
    method RewriteDataReply(buff: string) returns (out: Rewritten)
      requires Valid()
      modifies handlers, inDataTransfer
      ensures Valid()
      ensures !out.Skip?
      ensures !(config.dataChanProxy && isLoggedin) ==>
        out == Line(buff) && unchanged(handlers) && unchanged(inDataTransfer)
      ensures config.dataChanProxy && isLoggedin ==>
        && (out.Crash? <==> Crashes(buff, dataConnector != null))
        && (out.Line? ==> out.text == RewrittenReply(buff, dataConnector, config.masqueradeIP))
        && inDataTransfer.on == ("150 " <= buff || (old(inDataTransfer.on) && !("226 " <= buff)))
      ensures config.dataChanProxy && isLoggedin && dataConnector != null && out.Line? ==>
        dataConnector.originConn == Learnt(old(dataConnector.originConn), buff, config.ignorePassiveIP)
      ensures forall h :: h in handlers ==> h.closed == old(h.closed) && h.clientConn == old(h.clientConn)
      ensures forall h :: h in handlers && (out.Crash? || h != dataConnector) ==> unchanged(h)
    {
      hide Learnt, CrashesWithout, RewrittenReply;
      OneAnswer(buff);
      if !(config.dataChanProxy && isLoggedin) {
        return Line(buff);
      }
      if IsPasvAnswer(buff) || IsEpsvAnswer(buff) {
        var crashed := LearnAddress(buff);
        if crashed {
          return Crash;
        }
      } else {
        var leg := if dataConnector == null then FreshLeg("", "") else dataConnector.originConn;
        OrdinaryReply(leg, buff, config.ignorePassiveIP);
      }
      if "150 " <= buff {
        inDataTransfer.on := true;
      }
      if "226 " <= buff {
        inDataTransfer.on := false;
      }
      var text := AnswerInOwnMode(buff);
      return Line(text);
    }

    method SendToOrigin(line: string, writeOk: bool) returns (ok: bool)
      requires Valid()
      modifies writer
      ensures Valid()
      ensures ok <==> writeOk && CommandLine.Sanitize(line).Some?
      ensures writer.lines == old(writer.lines) + if ok then [CommandLine.Sanitize(line).value] else []
    {
      hide CommandLine.Sanitize, CommandLine.Decode, CommandLine.WellFormed, DataHandler.Coherent;
      ok := writer.SendToOrigin(line, writeOk);
    }

    ghost function Settings(): ReplyFraming.Settings
      reads config
    {
      ReplyFraming.Settings(welcomeMsg, config.proxyProtocol)
    }

    /** What the reader's loop makes of a line that does not continue a reply, up to the multi-line test. */
    method ReceiveLine(line: string) returns (out: Rewritten)
      requires Valid()
      modifies this`isLoggedin, handlers, inDataTransfer
      ensures Valid()
      ensures var i := ReplyFraming.Input(line, None);
              var buff := ReplyFraming.Greeted(Settings(), i, old(isLoggedin));
              && isLoggedin == ReplyFraming.LoginAfter(Settings(), i, old(isLoggedin))
              && (out.Skip? <==> ReplyFraming.Skipped(Settings(), i, old(isLoggedin)))
              && (out.Line? && config.dataChanProxy && isLoggedin ==>
                    out.text == RewrittenReply(buff, dataConnector, config.masqueradeIP))
              && (out.Line? && !(config.dataChanProxy && isLoggedin) ==> out.text == buff)
              && (out.Line? && config.dataChanProxy && isLoggedin ==>
                    && inDataTransfer.on == ("150 " <= buff || (old(inDataTransfer.on) && !("226 " <= buff)))
                    && (dataConnector != null ==>
                          dataConnector.originConn
                            == Learnt(old(dataConnector.originConn), buff, config.ignorePassiveIP)))
              && (out.Crash? <==>
                    !out.Skip? && config.dataChanProxy && isLoggedin && Crashes(buff, dataConnector != null))
      ensures isLoggedin == (old(isLoggedin) || ReplyFraming.GetCode(line) == "230")
      ensures ReplyFraming.IsCoded(line) ==> isLoggedin == (old(isLoggedin) || line[..3] == "230")
      ensures forall h :: h in handlers ==> h.closed == old(h.closed)
    {
      hide ReplyFraming.GetCode, ReplyFraming.Welcome, ReplyFraming.IsCoded, Contains, Crashes, RewrittenReply, Learnt;
      ghost var input := ReplyFraming.Input(line, None);
      ReplyFraming.LoginLine(ReplyFraming.Settings(welcomeMsg, config.proxyProtocol), input, isLoggedin);
      if ReplyFraming.IsCoded(line) {
        ReplyFraming.LoginIff(ReplyFraming.Settings(welcomeMsg, config.proxyProtocol), input, isLoggedin);
      }
      var buff := line;
      if ReplyFraming.GetCode(buff) == "220" && !isLoggedin {
        buff := ReplyFraming.Welcome(ReplyFraming.Settings(welcomeMsg, config.proxyProtocol));
      }
      if ReplyFraming.GetCode(buff) == "230" {
        isLoggedin := true;
      }
      if config.proxyProtocol && Contains(buff, "500 PROXY") {
        return Skip;
      }
      out := RewriteDataReply(buff);
    }

    /** newDataHandler and SetDataHandler; a handler that could not listen is closed and never attached. */
    method AttachDataHandler(command: string, w: World) returns (ok: bool)
      requires Valid() && isLoggedin
      modifies this`dataConnector, this`handlers, handlers, inDataTransfer
      ensures Valid()
      ensures ok <==> CanListen(command, config.transferMode, w)
      ensures ok ==>
        && dataConnector != null && fresh(dataConnector) && handlers == old(handlers) + {dataConnector}
        && !dataConnector.closed && (forall h :: h in old(handlers) ==> h.closed)
        && dataConnector.clientConn == ClientLeg(command, config.transferMode, w)
        && dataConnector.originConn == OriginLeg(command, config.transferMode, w)
      ensures !ok ==> dataConnector == old(dataConnector) && forall h :: h in old(handlers) ==> unchanged(h)
      ensures old(handlers) <= handlers && fresh(handlers - old(handlers))
    {
      var handler := new DataHandler(command, config.transferMode, w.clientPeer, w.originPeer, inDataTransfer);
      ok := handler.OpenListeners(w.clientPort, w.originPort);
      if !ok {
        handlers := handlers + {handler};
        return;
      }
      SetDataHandler(handler);
    }

    /** The part of switchOrigin that dials, greets and replays, after the old connection has been closed. */
    method ConnectOrigin(w: World, cmds: seq<string>) returns (ok: bool)
      modifies this`writer, this`originLayers
      ensures w.dialOk ==> fresh(writer) && writer.Valid() && writer.lines == []
      ensures !w.dialOk ==> writer == old(writer)
      ensures w.originAddr != "" ==> (ok <==> SwitchSucceeds(w, config.proxyProtocol, cmds))
      ensures ok ==> originLayers == TlsReplay.AuthCount(cmds)
    {
      originLayers := 0;
      if !w.dialOk {
        return false;
      }
      writer := new CommandLine.OriginWriter();
      if (config.proxyProtocol && !w.headerOk) || !w.bannerOk {
        return false;
      }
      var leg := new TlsReplay.OriginLeg(w.incoming, w.writable);
      ghost var start := leg.leg;
      var err := leg.SendTLSCommand(cmds, config.proxyProtocol);
      TlsReplay.ReplaySucceedsIff(cmds, start, config.proxyProtocol);
      originLayers := leg.leg.layers;
      ok := err == TlsReplay.Finished(false);
    }

    /**
     switchOrigin as one step; the stop handshake with the relay loop is not shown. It destroys no data handler,
     because before login there is none.
     */
    method SwitchOrigin(w: World, cmds: seq<string>) returns (ok: bool)
      requires Valid()
      modifies this`passThrough, this`writer, this`originLayers, handlers, inDataTransfer
      ensures Valid() && passThrough == old(passThrough)
      ensures ok <==> !isLoggedin && SwitchSucceeds(w, config.proxyProtocol, cmds)
      ensures unchanged(handlers) && unchanged(inDataTransfer)
      ensures w.originAddr == "" || isLoggedin ==> unchanged(this)
      ensures w.originAddr != "" && !isLoggedin && w.dialOk ==> fresh(writer) && writer.lines == []
      ensures !w.dialOk ==> writer == old(writer)
      ensures ok ==> fresh(writer) && writer.lines == [] && originLayers == TlsReplay.AuthCount(cmds)
    {
      if w.originAddr == "" || isLoggedin {
        return false;
      }
      var deferred := passThrough;
      passThrough := false;
      Close(w.closeOk);
      ok := ConnectOrigin(w, cmds);
      passThrough := deferred;
    }
  }
  const UNSOLICITED := "227 (1,2,3,4,5,6)\r\n"

  lemma UnsolicitedCrashes()
    ensures CrashesWithout(UNSOLICITED)
  {
    assert UNSOLICITED[4] == '(' && UNSOLICITED[16] == ')';
  }

  /** A parenthesised 227 that no data command asked for crashes the reader of a client that has logged in. */
  method UnsolicitedPassiveReply(p: ProxyServer) returns (out: Rewritten)
    requires p.Valid() && p.isLoggedin && p.config.dataChanProxy && p.dataConnector == null
    modifies p`isLoggedin, p.handlers, p.inDataTransfer
    ensures out == Crash
  {
    hide CrashesWithout, ReplyFraming.GetCode, ReplyFraming.Welcome, RewrittenReply;
    UnsolicitedCrashes();
    ContainsNeeds(UNSOLICITED, "500 PROXY", 'P');
    out := p.ReceiveLine(UNSOLICITED);
  }
}

/** What the two ends of a proxied data channel are told, and that it fits what the data handler does. */
module ModeCoherence {
  import opened GoStrings
  import opened Options
  import opened Addresses
  import opened Configuration
  import opened DataChannel
  import opened Proxy
  import opened Commands
  import CommandLine
  import ReplyFraming

  // ---------------------------------------------------------------- the command to the origin

  /** A text without CR and LF that starts with a word of letters is sent as it is, closed by CRLF. */
  lemma SentAsIs(body: string, word: string)
    requires word <= body && word != [] && ' ' !in word && (|word| == |body| || body[|word|] == ' ')
    requires IsLetter(body[0]) && forall i :: 0 <= i < |body| ==> !IsCRLF(body[i])
    ensures CommandLine.Sanitize(body + "\r\n") == Some(body + "\r\n") && CommandLine.Word(body + "\r\n") == word
  {
    CommandLine.WellFormedClosed(body);
    CommandLine.FixpointIff(body + "\r\n");
    assert (body + "\r\n")[0] == body[0];
    TrimRightAll(body, "\r\n", IsCRLF);
    ReplyFraming.FirstFieldIs(body, ' ', word);
  }

  lemma PortCommand(ip: string, port: nat)
    requires IsLiteral(ip) && IsPort(port)
    ensures var m := "PORT " + PrintAddr(ip, port) + "\r\n";
            && CommandLine.Sanitize(m) == Some(m) && CommandLine.Word(m) == "PORT"
            && HasArgument(m) && ParseLineToAddr(Argument(m)) == Some((ip, Itoa(port)))
  {
    hide PrintAddr, ParseLineToAddr, Split, CommandLine.Sanitize, CommandLine.Word;
    var arg := PrintAddr(ip, port);
    var body := "PORT " + arg;
    PrintedBytes(ip, port);
    PortLineParses(ip, port);
    assert body[0] == 'P' && body[4] == ' ' && body[..4] == "PORT";
    assert forall i :: 0 <= i < |arg| ==> body[5 + i] == arg[i];
    SentAsIs(body, "PORT");
  }

  /**
   For every transfer mode that survives validation and every data command of the client, the origin is sent
   PORT with the address of the listener if the handler listens on the origin's side, and a bare PASV or EPSV if
   not. It is the configured mode, or in CLIENT mode the client's own, PORT standing for EPRT.
   */
  lemma OriginCommandFits(command: string, mode: string, w: World)
    requires IsDataCommand(command) && IsMode(mode) && CanListen(command, mode, w)
    requires IsLiteral(w.localIP) && (w.originPort.Some? ==> IsPort(w.originPort.value))
    ensures var m, leg := OriginCommand(command, mode, w), OriginLeg(command, mode, w);
            && CommandLine.Sanitize(m) == Some(m)
            && (CommandLine.Word(m) == "PORT" <==> leg.needsListen)
            && (CommandLine.Word(m) != "PORT" ==>
                  IsPassive(CommandLine.Word(m)) && m == CommandLine.Word(m) + "\r\n")
            && (mode != "CLIENT" ==> CommandLine.Word(m) == mode)
            && (mode == "CLIENT" ==> CommandLine.Word(m) == if IsActive(command) then "PORT" else command)
            && (CommandLine.Word(m) == "PORT" ==>
                  && HasArgument(m) && leg.listener.Some?
                  && ParseLineToAddr(Argument(m)) == Some((w.localIP, Itoa(leg.listener.value))))
  {
    hide CommandLine.Sanitize, CommandLine.Word, HasArgument, ParseLineToAddr, PrintAddr, IsLiteral;
    if OriginLeg(command, mode, w).needsListen {
      PortCommand(w.localIP, w.originPort.value);
    } else {
      var word := if mode == "CLIENT" then command else mode;
      SentAsIs(word, word);
    }
  }

  // ---------------------------------------------------------------- the reply to the client

  lemma CodeOfText(text: string, code: string)
    requires ReplyFraming.IsCode(code) && |text| >= 4
    requires text[0] == code[0] && text[1] == code[1] && text[2] == code[2] && text[3] == ' '
    ensures ReplyFraming.GetCode(text) == code && !ReplyFraming.Opens(text)
  {
    assert text[..3] == code;
    ReplyFraming.CodeOfLine(text);
  }

  function ListenPort(listener: Option<nat>): nat {
    if listener.Some? then listener.value else 0
  }

  /** The code of the proxy's own reply to each data command. */
  function CodeFor(mode: string): string {
    if IsActive(mode) then "200" else if mode == "PASV" then "227" else "229"
  }

  lemma PasvReplyCode(ip: string, port: nat)
    ensures ReplyFraming.GetCode(PasvReply(ip, port)) == "227" && !ReplyFraming.Opens(PasvReply(ip, port))
  {
    hide PrintAddr, ReplyFraming.GetCode, ReplyFraming.Opens;
    CodeOfText(PasvReply(ip, port), "227");
  }

  lemma EpsvReplyCode(port: nat)
    ensures ReplyFraming.GetCode(EpsvReply(port)) == "229" && !ReplyFraming.Opens(EpsvReply(port))
  {
    hide Itoa, ReplyFraming.GetCode, ReplyFraming.Opens;
    CodeOfText(EpsvReply(port), "229");
  }

  lemma OwnReplyCode(mode: string, ip: string, port: nat)
    ensures var r := OwnReply(mode, ip, port); ReplyFraming.GetCode(r) == CodeFor(mode) && !ReplyFraming.Opens(r)
  {
    hide PasvReply, EpsvReply, ReplyFraming.GetCode, ReplyFraming.Opens;
    if IsActive(mode) {
      CodeOfText(OwnReply(mode, ip, port), "200");
    }
    PasvReplyCode(ip, port);
    EpsvReplyCode(port);
  }

  /** Whatever takes the place of a reply is one line, so the multi-line test that follows leaves it alone. */
  lemma AnswerIsSingle(buff: string, h: DataHandler?, masqueradeIP: string)
    requires IsDataAnswer(buff)
    ensures !ReplyFraming.Opens(RewrittenReply(buff, h, masqueradeIP))
  {
    hide OwnReply;
    assert buff[3] == ' ';
    if h != null {
      OwnReplyCode(h.clientConn.mode, masqueradeIP, 0);
      OwnReplyCode(h.clientConn.mode, masqueradeIP, ListenPort(h.clientConn.listener));
    }
  }

  /**
   While the handler is open, every answer to a data command reaches the client in the client's own mode, and
   a passive one names the port the handler listens on for the client.
   */
  lemma AnswerFits(buff: string, h: DataHandler, masqueradeIP: string)
    requires IsDataAnswer(buff) && !h.closed && h.Coherent() && IsDataCommand(h.clientConn.mode)
    requires h.clientConn.listener.Some? ==> IsPort(h.clientConn.listener.value)
    requires IsLiteral(masqueradeIP)
    ensures var r, mode := RewrittenReply(buff, h, masqueradeIP), h.clientConn.mode;
            && ReplyFraming.GetCode(r) == CodeFor(mode)
            && (IsActive(mode) ==> r == "200 " + mode + " command successful\r\n")
            && (IsPassive(mode) ==>
                  && h.clientConn.listener.Some? && Sliceable(r) && Between(r).Some?
                  && var port := Itoa(h.clientConn.listener.value);
                     if mode == "PASV" then ParseLineToAddr(Between(r).value) == Some((masqueradeIP, port))
                     else ParseEpsvPort(Between(r).value) == Some(port))
  {
    hide PasvReply, EpsvReply, Itoa, IsDataAnswer, ParseLineToAddr, ParseEpsvPort;
    hide ReplyFraming.GetCode, ReplyFraming.Opens;
    var port := ListenPort(h.clientConn.listener);
    OwnReplyCode(h.clientConn.mode, masqueradeIP, port);
    if h.clientConn.mode == "PASV" {
      PasvReplyParses(masqueradeIP, port);
    } else if h.clientConn.mode == "EPSV" {
      EpsvReplyParses(port);
    }
  }
  // ---------------------------------------------------------------- without an open handler

  /** Without an open handler every answer to a data command becomes 425, and nothing else is touched. */
  lemma NoHandlerIs425(buff: string, h: DataHandler?, masqueradeIP: string)
    requires h == null || h.closed
    ensures RewrittenReply(buff, h, masqueradeIP)
         == if "227 " <= buff || "229 " <= buff || "200 PORT command successful" <= buff
            then "425 Can't open data connection\r\n" else buff
  {
  }

  /** Whatever the handler, a reply with any other code passes as it is. */
  lemma OtherRepliesPass(buff: string, h: DataHandler?, masqueradeIP: string)
    requires ReplyFraming.IsCoded(buff) && buff[..3] != "227" && buff[..3] != "229" && buff[..3] != "200"
    ensures RewrittenReply(buff, h, masqueradeIP) == buff
  {
  }

  /**
   Without a handler a passive reply crashes the reader exactly when its parser would panic anyway or would store
   something in the handler there is not.
   */
  lemma CrashIffStored(buff: string, ignorePassiveIP: bool)
    requires IsPasvAnswer(buff) || IsEpsvAnswer(buff)
    ensures CrashesWithout(buff) <==> !Sliceable(buff) || exists c :: Learnt(c, buff, ignorePassiveIP) != c
  {
    hide WithAddress, ParseLineToAddr, ParseEpsvPort, Index, LastIndex;
    OneAnswer(buff);
    if Sliceable(buff) && Between(buff).Some? {
      var inside := Between(buff).value;
      if IsPasvAnswer(buff) {
        var c := FreshLeg("", "");
        StoringChanges(c, ParseLineToAddr(inside), ignorePassiveIP);
        var d := c.(remotePort := "-");
        assert Learnt(c, buff, ignorePassiveIP) != c || Learnt(d, buff, ignorePassiveIP) != d;
      } else if ParseEpsvPort(inside).Some? {
        var c := FreshLeg("", "").(remotePort := ParseEpsvPort(inside).value + "-");
        assert Learnt(c, buff, ignorePassiveIP) != c;
      }
    }
  }

  lemma StoringChanges(c: Connector, addr: Option<(string, string)>, ignoreIP: bool)
    requires c.remotePort == ""
    ensures var d := c.(remotePort := "-"); WithAddress(c, addr, ignoreIP) != c || WithAddress(d, addr, ignoreIP) != d
  {
  }

  // ---------------------------------------------------------------- where the data channel dials

  /** The address to dial: one a peer may name if it is public, the control peer's own otherwise. */
  function DialTarget(ip: string, peer: string, ignored: bool): string
    requires IsLiteral(ip)
  {
    if IsPublicIP(ParseIP(ip).value) && !ignored then ip else peer
  }

  lemma CommandLineParses(word: string, arg: string)
    requires word != [] && arg != [] && ' ' !in word && ' ' !in arg && !IsCRLF(word[0]) && !IsCRLF(arg[|arg| - 1])
    ensures HasArgument(word + " " + arg + "\r\n") && Argument(word + " " + arg + "\r\n") == arg
  {
    ArgumentOfLine(word, arg);
  }

  /**
   A client's PORT is accepted, its port stored, and its address too if that is public; for any other address the
   handler will dial the peer of the client's control connection.
   */
  lemma PortIsStored(mode: string, w: World, ip: string, port: nat)
    requires IsLiteral(ip) && IsPort(port)
    ensures var line := "PORT " + PrintAddr(ip, port) + "\r\n";
            var leg := Addressed(ClientLeg("PORT", mode, w), "PORT", line);
            && AddressAnswer("PORT", line) == Nothing
            && leg.remotePort == Itoa(port) && leg.remoteIP == DialTarget(ip, w.clientPeer, false)
  {
    hide PrintAddr, ParseLineToAddr, Split, Itoa, Argument;
    PortLineParses(ip, port);
  }

  /** The same for EPRT with protocol 1. */
  lemma EprtIsStored(mode: string, w: World, ip: string, port: nat)
    requires IsLiteral(ip) && IsPort(port)
    ensures var line := "EPRT " + ("|1|" + ip + "|" + Itoa(port) + "|") + "\r\n";
            var leg := Addressed(ClientLeg("EPRT", mode, w), "EPRT", line);
            && AddressAnswer("EPRT", line) == Nothing
            && leg.remotePort == Itoa(port) && leg.remoteIP == DialTarget(ip, w.clientPeer, false)
  {
    var arg := "|1|" + ip + "|" + Itoa(port) + "|";
    assert ' ' !in arg && arg[|arg| - 1] == '|' by {
      LiteralBytes(ip);
    }
    assert "EPRT " + arg + "\r\n" == "EPRT" + " " + arg + "\r\n";
    hide ParseEPRTtoAddr, Split, Itoa, Argument, HasArgument, TrimCRLF, IsLiteral;
    CommandLineParses("EPRT", arg);
    EprtParses(ip, port);
  }

  /**
   From a 227 with any text around its parentheses the handler learns the port, and the address if that is public
   and not to be ignored; otherwise it will dial the peer of the origin's control connection.
   */
  lemma PasvIsLearnt(command: string, mode: string, w: World, ignorePassiveIP: bool,
                     before: string, ip: string, port: nat, after: string)
    requires IsLiteral(ip) && IsPort(port) && '(' !in before && ')' !in after && "227 " <= before
    ensures var line := before + "(" + PrintAddr(ip, port) + ")" + after;
            var leg := Learnt(OriginLeg(command, mode, w), line, ignorePassiveIP);
            leg.remotePort == Itoa(port) && leg.remoteIP == DialTarget(ip, w.originPeer, ignorePassiveIP)
  {
    hide PrintAddr, ParseLineToAddr, Itoa, Index, LastIndex;
    var line := before + "(" + PrintAddr(ip, port) + ")" + after;
    BetweenIs(before, PrintAddr(ip, port), after);
    ParsePrinted(ip, port);
    assert line[..4] == before[..4];
  }

  /** From a 229 it learns the port alone, if it is one. */
  lemma EpsvIsLearnt(c: Connector, ignorePassiveIP: bool, before: string, p: string, after: string)
    requires p != [] && AllDigits(p) && '(' !in before && ')' !in after && "229 " <= before
    ensures Learnt(c, before + "(" + ("|||" + p + "|") + ")" + after, ignorePassiveIP)
         == if IsPort(Value(p)) then c.(remotePort := p) else c
  {
    hide ParseEpsvPort, Index, LastIndex;
    var inside := "|||" + p + "|";
    var line := before + "(" + inside + ")" + after;
    BetweenIs(before, inside, after);
    EpsvPortIff(p);
    assert line[..4] == before[..4];
    OneAnswer(line);
  }

  /** A new handler listens for a client exactly in the passive modes, at the port given, and knows both peers. */
  lemma LegsFit(command: string, mode: string, w: World)
    ensures var c, o := ClientLeg(command, mode, w), OriginLeg(command, mode, w);
            && (c.needsListen <==> command == "PASV" || command == "EPSV")
            && c.listener == (if c.needsListen then w.clientPort else None) && c.mode == command
            && o.listener == (if o.needsListen then w.originPort else None) && o.mode == mode
            && c.originalRemoteIP == w.clientPeer && o.originalRemoteIP == w.originPeer
            && c.dataConn.None? && o.dataConn.None?
  {
  }
}

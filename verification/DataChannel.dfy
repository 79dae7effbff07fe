/** The handler of one data channel: its two legs, the addresses it learns, and what closing it releases. */
module DataChannel {
  import opened Options
  import opened Addresses

  /** Something the handler holds from the operating system. */
  datatype Resource = Listener(port: nat) | DataConn(id: nat)

  /** One leg of the data channel. */
  datatype Connector = Connector(
    listener: Option<nat>,           // the port of an open listener
    dataConn: Option<nat>,
    originalRemoteIP: string,        // the peer of the control connection
    remoteIP: string,
    remotePort: string,
    needsListen: bool,
    mode: string)

  /** A boolean shared by reference, as abool.AtomicBool is. */
  class Flag {
    var on: bool

    constructor ()
      ensures !on
    {
      on := false;
    }
  }

  predicate IsPassive(mode: string) {
    mode == "PASV" || mode == "EPSV"
  }

  predicate IsActive(mode: string) {
    mode == "PORT" || mode == "EPRT"
  }

  /** checkNeedListen */
  predicate CheckNeedListen(clientMode: string, originMode: string, isClient: bool) {
    if isClient then IsPassive(clientMode)
    else IsActive(originMode) || (originMode == "CLIENT" && IsActive(clientMode))
  }

  function FreshLeg(peer: string, mode: string): Connector {
    Connector(None, None, peer, "", "", false, mode)
  }

  /** A leg after its listener was opened, where it needs one. */
  function Listening(c: Connector, needed: bool, port: Option<nat>): Connector {
    if needed then c.(listener := port, needsListen := true) else c
  }

  function Held(c: Connector, conn: bool): seq<Resource> {
    if conn then if c.dataConn.Some? then [DataConn(c.dataConn.value)] else []
    else if c.listener.Some? then [Listener(c.listener.value)] else []
  }

  function Emptied(c: Connector): Connector {
    c.(dataConn := None, listener := None)
  }

  /** The address a PORT, EPRT or PASV parse stores: a public one as given, the control peer's otherwise. */
  function Trusted(ip: string, peer: string): string {
    if IsPublicText(ip) then ip else peer
  }

  /** The leg after an address was stored in it; None is a parse that failed and stored empty strings. */
  function WithAddress(c: Connector, addr: Option<(string, string)>, ignoreIP: bool): Connector {
    match addr
    case Some((ip, port)) =>
      c.(remoteIP := if ignoreIP then c.originalRemoteIP else Trusted(ip, c.originalRemoteIP), remotePort := port)
    case None => c.(remoteIP := c.originalRemoteIP, remotePort := "")
  }

  /** The origin leg after parsePASVresponse; a reply without both parentheses changes nothing. */
  function AfterPasv(c: Connector, line: string, ignorePassiveIP: bool): (r: Connector)
    requires Sliceable(line)
    ensures r == c.(remoteIP := r.remoteIP, remotePort := r.remotePort)
  {
    if Between(line).None? then c else WithAddress(c, ParseLineToAddr(Between(line).value), ignorePassiveIP)
  }

  /** The origin leg after parseEPSVresponse, which sets the port alone and never an address. */
  function AfterEpsv(c: Connector, line: string): (r: Connector)
    requires Sliceable(line)
    ensures r == c.(remotePort := r.remotePort)
  {
    if Between(line).None? then c
    else match ParseEpsvPort(Between(line).value)
         case Some(port) => c.(remotePort := port)
         case None => c
  }

  class DataHandler {
    var clientConn: Connector
    var originConn: Connector
    const inDataTransfer: Flag
    var closed: bool
    ghost var released: seq<Resource>

    /** An open handler listens where its modes say it must, and holds the listener there. */
    ghost predicate Coherent()
      reads this
    {
      !closed ==>
        && (clientConn.needsListen <==> CheckNeedListen(clientConn.mode, originConn.mode, true))
        && (originConn.needsListen <==> CheckNeedListen(clientConn.mode, originConn.mode, false))
        && (clientConn.needsListen ==> clientConn.listener.Some?)
        && (originConn.needsListen ==> originConn.listener.Some?)
    }

    /** Everything the handler holds, in the order Close releases it. */
    ghost function Holdings(): seq<Resource>
      reads this
    {
      Held(clientConn, true) + Held(originConn, true) + Held(clientConn, false) + Held(originConn, false)
    }

    /** The handler before any listener is set. */
    constructor (clientMode: string, originMode: string, clientPeer: string, originPeer: string, flag: Flag)
      ensures !closed && released == [] && inDataTransfer == flag
      ensures clientConn == FreshLeg(clientPeer, clientMode) && originConn == FreshLeg(originPeer, originMode)
    {
      clientConn, originConn := FreshLeg(clientPeer, clientMode), FreshLeg(originPeer, originMode);
      inDataTransfer, closed, released := flag, false, [];
    }

    /**
     The second half of newDataHandler; the ports are what setNewListener returns for each leg, None when it
     fails, and then the handler is closed.
     */
    method OpenListeners(clientPort: Option<nat>, originPort: Option<nat>) returns (ok: bool)
      requires !closed && released == [] && Holdings() == [] && !clientConn.needsListen && !originConn.needsListen
      modifies this, inDataTransfer
      ensures var c := CheckNeedListen(old(clientConn.mode), old(originConn.mode), true);
              var o := CheckNeedListen(old(clientConn.mode), old(originConn.mode), false);
              && (ok <==> (c ==> clientPort.Some?) && (o ==> originPort.Some?))
              && (ok ==> clientConn == Listening(old(clientConn), c, clientPort))
              && (ok ==> originConn == Listening(old(originConn), o, originPort))
      ensures ok ==> !closed && Coherent() && inDataTransfer.on == old(inDataTransfer.on) && released == []
      ensures !ok ==> closed && Holdings() == [] && !inDataTransfer.on
    {
      if CheckNeedListen(clientConn.mode, originConn.mode, true) {
        if clientPort.None? {
          Close();
          return false;
        }
        clientConn := clientConn.(listener := clientPort, needsListen := true);
      }
      if CheckNeedListen(clientConn.mode, originConn.mode, false) {
        if originPort.None? {
          Close();
          return false;
        }
        originConn := originConn.(listener := originPort, needsListen := true);
      }
      return true;
    }

    method CloseConnections()
      modifies `clientConn, `originConn, `released
      ensures released == old(released + Held(clientConn, true) + Held(originConn, true))
      ensures clientConn == old(clientConn).(dataConn := None) && originConn == old(originConn).(dataConn := None)
    {
      if clientConn.dataConn.Some? {
        released := released + [DataConn(clientConn.dataConn.value)];
        clientConn := clientConn.(dataConn := None);
      }
      if originConn.dataConn.Some? {
        released := released + [DataConn(originConn.dataConn.value)];
        originConn := originConn.(dataConn := None);
      }
    }

    method CloseListeners()
      modifies `clientConn, `originConn, `released
      ensures released == old(released + Held(clientConn, false) + Held(originConn, false))
      ensures clientConn == old(clientConn).(listener := None) && originConn == old(originConn).(listener := None)
    {
      if clientConn.listener.Some? {
        released := released + [Listener(clientConn.listener.value)];
        clientConn := clientConn.(listener := None);
      }
      if originConn.listener.Some? {
        released := released + [Listener(originConn.listener.value)];
        originConn := originConn.(listener := None);
      }
    }

    /** Close releases everything held, once, and ends the transfer; closing again changes nothing. */
    method Close()
      modifies this, inDataTransfer
      ensures closed && Coherent()
      ensures !old(closed) ==>
        && released == old(released + Holdings()) && Holdings() == [] && !inDataTransfer.on
        && clientConn == Emptied(old(clientConn)) && originConn == Emptied(old(originConn))
      ensures old(closed) ==>
        && released == old(released) && inDataTransfer.on == old(inDataTransfer.on)
        && clientConn == old(clientConn) && originConn == old(originConn)
    {
      if closed {
        return;
      }
      CloseConnections();
      CloseListeners();
      closed := true;
      inDataTransfer.on := false;
    }

    /** parsePORTcommand */
    method ParsePORTcommand(line: string) returns (ok: bool)
      requires HasArgument(line)
      modifies this`clientConn
      ensures ok <==> ParseLineToAddr(Argument(line)).Some?
      ensures clientConn == WithAddress(old(clientConn), ParseLineToAddr(Argument(line)), false)
      ensures clientConn.remoteIP == clientConn.originalRemoteIP || IsPublicText(clientConn.remoteIP)
    {
      var addr := ParseLineToAddr(Argument(line));
      ok := addr.Some?;
      var (ip, port) := if ok then addr.value else ("", "");
      clientConn := clientConn.(remoteIP := ip, remotePort := port);
      if !IsPublicText(clientConn.remoteIP) {
        clientConn := clientConn.(remoteIP := clientConn.originalRemoteIP);
      }
    }

    /** parseEPRTcommand */
    method ParseEPRTcommand(line: string) returns (addr: EprtResult)
      requires HasArgument(line)
      modifies this`clientConn
      ensures addr == ParseEPRTtoAddr(Argument(line))
      ensures var parsed := if addr.EprtAddr? then Some((addr.ip, addr.port)) else None;
              clientConn == WithAddress(old(clientConn), parsed, false)
      ensures clientConn.remoteIP == clientConn.originalRemoteIP || IsPublicText(clientConn.remoteIP)
    {
      addr := ParseEPRTtoAddr(Argument(line));
      var (ip, port) := if addr.EprtAddr? then (addr.ip, addr.port) else ("", "");
      clientConn := clientConn.(remoteIP := ip, remotePort := port);
      if !IsPublicText(clientConn.remoteIP) {
        clientConn := clientConn.(remoteIP := clientConn.originalRemoteIP);
      }
    }

    /** parsePASVresponse */
    method ParsePASVresponse(line: string, ignorePassiveIP: bool) returns (ok: bool)
      requires Sliceable(line)
      modifies this`originConn
      ensures ok <==> Between(line).Some? && ParseLineToAddr(Between(line).value).Some?
      ensures originConn == AfterPasv(old(originConn), line, ignorePassiveIP)
      ensures Between(line).Some? ==>
        originConn.remoteIP == originConn.originalRemoteIP || IsPublicText(originConn.remoteIP)
    {
      var inside := Between(line);
      if inside.None? {
        return false;
      }
      var addr := ParseLineToAddr(inside.value);
      ok := addr.Some?;
      var (ip, port) := if ok then addr.value else ("", "");
      originConn := originConn.(remoteIP := ip, remotePort := port);
      if !IsPublicText(originConn.remoteIP) || ignorePassiveIP {
        originConn := originConn.(remoteIP := originConn.originalRemoteIP);
      }
    }

    /** parseEPSVresponse */
    method ParseEPSVresponse(line: string) returns (ok: bool)
      requires Sliceable(line)
      modifies this`originConn
      ensures ok <==> Between(line).Some? && ParseEpsvPort(Between(line).value).Some?
      ensures originConn == AfterEpsv(old(originConn), line)
    {
      var inside := Between(line);
      if inside.None? {
        return false;
      }
      var port := ParseEpsvPort(inside.value);
      if port.None? {
        return false;
      }
      originConn := originConn.(remotePort := port.value);
      return true;
    }
  }

  /** What a leg holds is its open listener and its connection, and nothing else. */
  lemma HeldIff(c: Connector, r: Resource)
    ensures r in Held(c, true) + Held(c, false) <==>
      (c.listener.Some? && r == Listener(c.listener.value)) || (c.dataConn.Some? && r == DataConn(c.dataConn.value))
    ensures |Held(c, true) + Held(c, false)|
         == (if c.listener.Some? then 1 else 0) + (if c.dataConn.Some? then 1 else 0)
  {
    var all := Held(c, true) + Held(c, false);
    if c.listener.Some? {
      assert all[|all| - 1] == Listener(c.listener.value);
    }
    if c.dataConn.Some? {
      assert all[0] == DataConn(c.dataConn.value);
    }
  }
}

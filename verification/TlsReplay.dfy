/** The replay of the client's TLS commands to a freshly dialled origin. */
module TlsReplay {
  import opened GoStrings
  import opened Sequences
  import CommandLine
  import ReplyFraming

  predicate IsAuth(cmd: string) {
    ToUpper(CommandLine.Word(cmd)) == "AUTH"
  }

  function AuthCount(cmds: seq<string>): nat {
    if cmds == [] then 0 else (if IsAuth(cmds[0]) then 1 else 0) + AuthCount(cmds[1..])
  }

  lemma {:induction false} AuthCountAppend(cmds: seq<string>, cmd: string)
    ensures AuthCount(cmds + [cmd]) == AuthCount(cmds) + if IsAuth(cmd) then 1 else 0
  {
    if cmds == [] {
      assert [cmd][1..] == [];
    } else {
      assert (cmds + [cmd])[1..] == cmds[1..] + [cmd];
      AuthCountAppend(cmds[1..], cmd);
    }
  }

  lemma AuthMeansLayer(cmds: seq<string>)
    requires cmds != [] ==> IsAuth(cmds[0])
    ensures AuthCount(cmds) > 0 <==> cmds != []
  {
  }

  /** A line from the origin and how a TLS handshake right after it would end; or the connection breaks. */
  datatype Incoming = Received(text: string, handshake: bool) | Broken

  /** The origin connection during the replay. */
  datatype Leg = Leg(
    layers: nat,                     // how many TLS connections wrap it
    sent: seq<string>,
    incoming: seq<Incoming>,
    writable: nat)                   // how many more commands it takes before a write fails

  /** nil is Finished(false); Finished(true) is an AUTH that was not answered with 234. */
  datatype Outcome = Finished(refused: bool) | Aborted

  datatype Answer = Answered | Wrapped | Refused | Lost

  /** A reply to AUTH that is skipped: the origin complaining about the proxy header. */
  predicate Skips(proxyProtocol: bool, i: Incoming) {
    i.Received? && ReplyFraming.GetCode(i.text) != "234" && proxyProtocol && Contains(i.text, "500 PROXY")
  }

  /** What the inner loop makes of one incoming line. */
  function Judge(auth: bool, i: Incoming): Answer {
    if i.Broken? then Lost
    else if !auth then Answered
    else if ReplyFraming.GetCode(i.text) != "234" then Refused
    else if i.handshake then Wrapped
    else Lost
  }

  /** What the inner loop ends with, and the lines it leaves. */
  function Await(auth: bool, proxyProtocol: bool, incoming: seq<Incoming>): (Answer, seq<Incoming>) {
    if incoming == [] then (Lost, [])
    else if auth && Skips(proxyProtocol, incoming[0]) then Await(auth, proxyProtocol, incoming[1..])
    else (Judge(auth, incoming[0]), incoming[1..])
  }

  /** One command sent and its reply awaited. */
  function Exchange(cmd: string, leg: Leg, proxyProtocol: bool): (Leg, Answer) {
    if leg.writable == 0 then (leg, Lost)
    else
      var (answer, rest) := Await(IsAuth(cmd), proxyProtocol, leg.incoming);
      (Leg(if answer.Wrapped? then leg.layers + 1 else leg.layers, leg.sent + [cmd], rest, leg.writable - 1), answer)
  }

  function Replay(cmds: seq<string>, leg: Leg, proxyProtocol: bool, refused: bool): (Leg, Outcome) {
    if cmds == [] then (leg, Finished(refused))
    else
      var (after, answer) := Exchange(cmds[0], leg, proxyProtocol);
      if answer.Lost? then (after, Aborted)
      else Replay(cmds[1..], after, proxyProtocol, refused || answer.Refused?)
  }

  /** The proxy's end of an origin connection while TLS commands are replayed. */
  class OriginLeg {
    var leg: Leg

    constructor (incoming: seq<Incoming>, writable: nat)
      ensures leg == Leg(0, [], incoming, writable)
    {
      leg := Leg(0, [], incoming, writable);
    }

    /** The inner loop of sendTLSCommand. */
    method AwaitReply(cmd: string, proxyProtocol: bool) returns (answer: Answer)
      modifies this
      ensures var (a, rest) := Await(IsAuth(cmd), proxyProtocol, old(leg).incoming);
              && answer == a
              && leg == old(leg).(incoming := rest, layers := old(leg).layers + if a.Wrapped? then 1 else 0)
    {
      hide CommandLine.Word, ReplyFraming.GetCode, Contains;
      while leg.incoming != []
        invariant leg == old(leg).(incoming := leg.incoming)
        invariant Await(IsAuth(cmd), proxyProtocol, leg.incoming)
               == Await(IsAuth(cmd), proxyProtocol, old(leg).incoming)
        decreases |leg.incoming|
      {
        var i := leg.incoming[0];
        leg := leg.(incoming := leg.incoming[1..]);
        if i.Broken? {
          return Lost;
        }
        if ToUpper(CommandLine.Word(cmd)) != "AUTH" {
          return Answered;
        }
        if ReplyFraming.GetCode(i.text) != "234" {
          if proxyProtocol && Contains(i.text, "500 PROXY") {
            continue;
          }
          return Refused;
        }
        if !i.handshake {
          return Lost;
        }
        leg := leg.(layers := leg.layers + 1);
        return Wrapped;
      }
      return Lost;
    }

    method SendTLSCommand(cmds: seq<string>, proxyProtocol: bool) returns (err: Outcome)
      modifies this
      ensures (leg, err) == Replay(cmds, old(leg), proxyProtocol, false)
    {
      hide Await, IsAuth;
      var refused, rest := false, cmds;
      while rest != []
        invariant Replay(cmds, old(leg), proxyProtocol, false) == Replay(rest, leg, proxyProtocol, refused)
        decreases |rest|
      {
        var cmd := rest[0];
        if leg.writable == 0 {
          return Aborted;
        }
        leg := leg.(sent := leg.sent + [cmd], writable := leg.writable - 1);
        var answer := AwaitReply(cmd, proxyProtocol);
        if answer.Lost? {
          return Aborted;
        }
        refused, rest := refused || answer.Refused?, rest[1..];
      }
      return Finished(refused);
    }
  }

  // ---------------------------------------------------------------- when the replay succeeds

  /** The lines an origin sends to grant one command: for AUTH, any skipped complaints and then 234 and a handshake. */
  predicate Grants(cmd: string, proxyProtocol: bool, block: seq<Incoming>) {
    && |block| > 0
    && var last := block[|block| - 1];
       if IsAuth(cmd) then
         && last.Received? && ReplyFraming.GetCode(last.text) == "234" && last.handshake
         && forall i :: 0 <= i < |block| - 1 ==> Skips(proxyProtocol, block[i])
       else |block| == 1 && last.Received?
  }

  /** The incoming lines start with one granting block per command, in order. */
  ghost predicate Granted(cmds: seq<string>, proxyProtocol: bool, incoming: seq<Incoming>) {
    exists blocks :: |blocks| == |cmds| && GrantedBy(cmds, proxyProtocol, blocks) && Joined(blocks) <= incoming
  }

  predicate GrantedBy(cmds: seq<string>, proxyProtocol: bool, blocks: seq<seq<Incoming>>)
    requires |blocks| == |cmds|
  {
    forall i :: 0 <= i < |cmds| ==> Grants(cmds[i], proxyProtocol, blocks[i])
  }

  /** The inner loop accepts a command exactly when a granting block comes next, and consumes just that. */
  lemma {:induction false} AwaitAccepts(cmd: string, proxyProtocol: bool, incoming: seq<Incoming>)
    returns (block: seq<Incoming>)
    requires Await(IsAuth(cmd), proxyProtocol, incoming).0 == if IsAuth(cmd) then Wrapped else Answered
    ensures Grants(cmd, proxyProtocol, block) && incoming == block + Await(IsAuth(cmd), proxyProtocol, incoming).1
  {
    hide IsAuth, ReplyFraming.GetCode, Contains;
    if IsAuth(cmd) && Skips(proxyProtocol, incoming[0]) {
      var more := AwaitAccepts(cmd, proxyProtocol, incoming[1..]);
      block := [incoming[0]] + more;
      assert block[|block| - 1] == more[|more| - 1];
    } else {
      block := [incoming[0]];
    }
  }

  lemma {:induction false} AwaitTakes(cmd: string, proxyProtocol: bool, block: seq<Incoming>, rest: seq<Incoming>)
    requires Grants(cmd, proxyProtocol, block)
    ensures Await(IsAuth(cmd), proxyProtocol, block + rest) == (if IsAuth(cmd) then Wrapped else Answered, rest)
  {
    hide IsAuth, ReplyFraming.GetCode, Contains;
    assert (block + rest)[0] == block[0] && (block + rest)[1..] == block[1..] + rest;
    if |block| > 1 {
      AwaitTakes(cmd, proxyProtocol, block[1..], rest);
    }
  }

  lemma {:induction false} RefusedStays(cmds: seq<string>, leg: Leg, proxyProtocol: bool)
    ensures Replay(cmds, leg, proxyProtocol, true).1 != Finished(false)
  {
    hide Exchange;
    if cmds != [] {
      RefusedStays(cmds[1..], Exchange(cmds[0], leg, proxyProtocol).0, proxyProtocol);
    }
  }

  lemma {:induction false} SuccessIsGranted(cmds: seq<string>, leg: Leg, proxyProtocol: bool)
    returns (blocks: seq<seq<Incoming>>)
    requires Replay(cmds, leg, proxyProtocol, false).1 == Finished(false)
    ensures |blocks| == |cmds| && GrantedBy(cmds, proxyProtocol, blocks) && Joined(blocks) <= leg.incoming
    ensures leg.writable >= |cmds|
    ensures var end := Replay(cmds, leg, proxyProtocol, false).0;
            end.layers == leg.layers + AuthCount(cmds) && end.sent == leg.sent + cmds
  {
    hide Await, IsAuth, Grants;
    if cmds == [] {
      blocks := [];
    } else {
      var (after, answer) := Exchange(cmds[0], leg, proxyProtocol);
      if answer.Refused? {
        RefusedStays(cmds[1..], after, proxyProtocol);
      }
      JudgeByKind(cmds[0], proxyProtocol, leg.incoming);
      var block := AwaitAccepts(cmds[0], proxyProtocol, leg.incoming);
      var more := SuccessIsGranted(cmds[1..], after, proxyProtocol);
      blocks := [block] + more;
      assert Joined(blocks) == block + Joined(more);
      assert leg.sent + [cmds[0]] + cmds[1..] == leg.sent + cmds;
    }
  }

  /** A command is wrapped only if it is AUTH, and merely answered only if it is not. */
  lemma {:induction false} JudgeByKind(cmd: string, proxyProtocol: bool, incoming: seq<Incoming>)
    ensures var a := Await(IsAuth(cmd), proxyProtocol, incoming).0;
            (a.Wrapped? ==> IsAuth(cmd)) && (a.Answered? ==> !IsAuth(cmd)) && (a.Refused? ==> IsAuth(cmd))
  {
    hide IsAuth, Skips;
    if incoming != [] {
      JudgeByKind(cmd, proxyProtocol, incoming[1..]);
    }
  }

  lemma {:induction false} GrantedSucceeds(cmds: seq<string>, leg: Leg, proxyProtocol: bool, blocks: seq<seq<Incoming>>)
    requires |blocks| == |cmds| && GrantedBy(cmds, proxyProtocol, blocks) && Joined(blocks) <= leg.incoming
    requires leg.writable >= |cmds|
    ensures Replay(cmds, leg, proxyProtocol, false).1 == Finished(false)
  {
    hide Await, IsAuth, Grants;
    if cmds != [] {
      var rest := leg.incoming[|blocks[0]|..];
      assert leg.incoming == blocks[0] + rest && Joined(blocks[1..]) <= rest;
      AwaitTakes(cmds[0], proxyProtocol, blocks[0], rest);
      GrantedSucceeds(cmds[1..], Exchange(cmds[0], leg, proxyProtocol).0, proxyProtocol, blocks[1..]);
    }
  }

  /**
   sendTLSCommand returns nil exactly when every command can be written and every one is granted: each AUTH by
   234 and a handshake, each other command by a line of any kind. It has then replayed the commands in their
   recorded order and wrapped the connection once per AUTH.
   */
  lemma ReplaySucceedsIff(cmds: seq<string>, leg: Leg, proxyProtocol: bool)
    ensures var (end, err) := Replay(cmds, leg, proxyProtocol, false);
            && (err == Finished(false) <==> leg.writable >= |cmds| && Granted(cmds, proxyProtocol, leg.incoming))
            && (err == Finished(false) ==> end.layers == leg.layers + AuthCount(cmds) && end.sent == leg.sent + cmds)
  {
    if Replay(cmds, leg, proxyProtocol, false).1 == Finished(false) {
      var blocks := SuccessIsGranted(cmds, leg, proxyProtocol);
    }
    if leg.writable >= |cmds| && Granted(cmds, proxyProtocol, leg.incoming) {
      var blocks :| |blocks| == |cmds| && GrantedBy(cmds, proxyProtocol, blocks) && Joined(blocks) <= leg.incoming;
      GrantedSucceeds(cmds, leg, proxyProtocol, blocks);
    }
  }

  /**
   A complaint about the proxy header in place of 234 is passed over exactly when pftp has sent such a header;
   otherwise it refuses the AUTH.
   */
  lemma ComplaintIsSkipped(text: string, handshake: bool, proxyProtocol: bool, rest: seq<Incoming>)
    requires ReplyFraming.GetCode(text) != "234" && Contains(text, "500 PROXY")
    ensures Await(true, proxyProtocol, [Received(text, handshake)] + rest)
         == if proxyProtocol then Await(true, proxyProtocol, rest) else (Refused, rest)
  {
    hide ReplyFraming.GetCode, Contains;
    var all := [Received(text, handshake)] + rest;
    assert all[0] == Received(text, handshake) && all[1..] == rest;
  }

  /** Any other line in place of 234 refuses the AUTH at once. */
  lemma OtherLineRefuses(text: string, handshake: bool, proxyProtocol: bool, rest: seq<Incoming>)
    requires ReplyFraming.GetCode(text) != "234" && !Contains(text, "500 PROXY")
    ensures Await(true, proxyProtocol, [Received(text, handshake)] + rest) == (Refused, rest)
  {
    hide ReplyFraming.GetCode, Contains;
    var all := [Received(text, handshake)] + rest;
    assert all[0] == Received(text, handshake) && all[1..] == rest;
  }

  lemma ExchangeSends(cmd: string, leg: Leg, proxyProtocol: bool)
    ensures var (after, answer) := Exchange(cmd, leg, proxyProtocol);
            && (answer.Lost? ==> after.sent == leg.sent || after.sent == leg.sent + [cmd])
            && (!answer.Lost? ==> after.sent == leg.sent + [cmd])
            && after.layers == leg.layers + (if answer.Wrapped? then 1 else 0)
            && (answer.Wrapped? || answer.Refused? ==> IsAuth(cmd)) && (answer.Answered? ==> !IsAuth(cmd))
  {
    hide IsAuth, Await;
    JudgeByKind(cmd, proxyProtocol, leg.incoming);
  }

  /**
   However the replay ends, the origin was sent a prefix of the commands in their order. A refusal does not stop it:
   only a lost connection does, and of the AUTHs of a finished replay some did not wrap exactly when one was refused.
   */
  lemma {:induction false} ReplaySends(cmds: seq<string>, leg: Leg, proxyProtocol: bool, refused: bool)
    ensures var (end, err) := Replay(cmds, leg, proxyProtocol, refused);
            && leg.sent <= end.sent <= leg.sent + cmds
            && (err.Finished? ==> end.sent == leg.sent + cmds)
            && end.layers <= leg.layers + AuthCount(cmds)
            && (err.Finished? ==> (err.refused <==> refused || end.layers < leg.layers + AuthCount(cmds)))
  {
    hide Exchange, IsAuth;
    if cmds == [] {
      assert leg.sent + cmds == leg.sent;
    } else {
      var (after, answer) := Exchange(cmds[0], leg, proxyProtocol);
      ExchangeSends(cmds[0], leg, proxyProtocol);
      assert leg.sent + [cmds[0]] + cmds[1..] == leg.sent + cmds;
      if !answer.Lost? {
        ReplaySends(cmds[1..], after, proxyProtocol, refused || answer.Refused?);
      }
    }
  }
  /**
   Only a connection that breaks or falls silent, a failed handshake or a failed write aborts the replay: with a line
   for every command it ends, whatever the lines say.
   */
  lemma {:induction false} ReplayFinishes(cmds: seq<string>, leg: Leg, refused: bool)
    requires leg.writable >= |cmds| && |leg.incoming| >= |cmds|
    requires forall i :: 0 <= i < |leg.incoming| ==> leg.incoming[i].Received? && leg.incoming[i].handshake
    ensures Replay(cmds, leg, false, refused).1.Finished?
  {
    hide IsAuth, ReplyFraming.GetCode, Contains;
    if cmds != [] {
      var (after, answer) := Exchange(cmds[0], leg, false);
      ReplayFinishes(cmds[1..], after, refused || answer.Refused?);
    }
  }
}

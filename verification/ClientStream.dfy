/**
 The byte stream to the client. The client handler (writeLine) and the relay loop (sendToClient) write to it
 concurrently through one buffered writer and under one mutex; each call of either is one message.
 */
module ClientStream {
  import opened Options
  import opened Sequences

  datatype Who = Handler | Relay

  /** Where one of the two writers stands in its current call. */
  datatype Pc =
    | Outside
    | Waiting(message: string)       // before Lock
    | Writing(rest: string)          // inside WriteString, `rest` not yet in the buffer
    | Flushing
    | Leaving                        // before the deferred Unlock

  datatype State = State(
    handler: Pc, relay: Pc,
    lock: Option<Who>,
    buffer: string,
    wire: string,                    // the bytes on the connection
    broken: bool,                    // a write has failed; the buffered writer then fails for good
    started: seq<string>)            // every message whose writer has taken the lock, in that order

  datatype Action =
    | Call(who: Who, line: string)
    | Lock(who: Who)
    | Copy(who: Who, n: nat)         // n bytes of the message go into the buffer
    | Spill(who: Who)                // the buffer is full and goes out
    | Written(who: Who)
    | Flush(who: Who)
    | Fail(who: Who, n: nat)         // a write to the connection fails after n bytes of the buffer
    | Unlock(who: Who)

  const Init := State(Outside, Outside, None, "", "", false, [])

  function At(s: State, who: Who): Pc {
    if who.Handler? then s.handler else s.relay
  }

  function Go(s: State, who: Who, pc: Pc): State {
    if who.Handler? then s.(handler := pc) else s.(relay := pc)
  }

  function Message(line: string): string {
    line + "\r\n"
  }

  predicate Enabled(s: State, a: Action) {
    match a
    case Call(w, _) => At(s, w).Outside?
    case Lock(w) => At(s, w).Waiting? && s.lock.None?
    case Copy(w, n) => At(s, w).Writing? && n <= |At(s, w).rest| && !s.broken
    case Spill(w) => At(s, w).Writing? && !s.broken
    case Written(w) => At(s, w) == Writing("") && !s.broken
    case Flush(w) => At(s, w).Flushing? && !s.broken
    case Fail(w, n) => (At(s, w).Writing? || At(s, w).Flushing?) && n <= |s.buffer| && (s.broken ==> n == 0)
    case Unlock(w) => At(s, w).Leaving?
  }

  function Next(s: State, a: Action): State
    requires Enabled(s, a)
  {
    match a
    case Call(w, line) => Go(s, w, Waiting(Message(line)))
    case Lock(w) => Go(s, w, Writing(At(s, w).message)).(lock := Some(w), started := s.started + [At(s, w).message])
    case Copy(w, n) => Go(s, w, Writing(At(s, w).rest[n..])).(buffer := s.buffer + At(s, w).rest[..n])
    case Spill(w) => s.(wire := s.wire + s.buffer, buffer := "")
    case Written(w) => Go(s, w, Flushing)
    case Flush(w) => Go(s, w, Leaving).(wire := s.wire + s.buffer, buffer := "")
    case Fail(w, n) => Go(s, w, Leaving).(wire := s.wire + s.buffer[..n], broken := true)
    case Unlock(w) => Go(s, w, Outside).(lock := None)
  }

  predicate Valid(s: State, run: seq<Action>)
    decreases |run|
  {
    run == [] || (Enabled(s, run[0]) && Valid(Next(s, run[0]), run[1..]))
  }

  function End(s: State, run: seq<Action>): State
    requires Valid(s, run)
    decreases |run|
  {
    if run == [] then s else End(Next(s, run[0]), run[1..])
  }

  predicate Inside(pc: Pc) {
    pc.Writing? || pc.Flushing? || pc.Leaving?
  }

  /** The part of the current message that has not reached the buffer. */
  function Unwritten(s: State): string {
    if s.lock.Some? && At(s, s.lock.value).Writing? then At(s, s.lock.value).rest else ""
  }

  /** Only the writer that holds the lock is inside. */
  predicate Exclusive(s: State) {
    && (Inside(s.handler) <==> s.lock == Some(Handler))
    && (Inside(s.relay) <==> s.lock == Some(Relay))
  }

  predicate Ends(message: string) {
    |message| >= 2 && message[|message| - 2] == '\r' && message[|message| - 1] == '\n'
  }

  predicate Closed(s: State) {
    && (forall i :: 0 <= i < |s.started| ==> Ends(s.started[i]))
    && (s.handler.Waiting? ==> Ends(s.handler.message))
    && (s.relay.Waiting? ==> Ends(s.relay.message))
  }

  /** Where the bytes of the started messages are. */
  predicate Content(s: State) {
    && (s.broken ==> s.wire <= Joined(s.started))
    && (!s.broken ==> s.wire + s.buffer + Unwritten(s) == Joined(s.started))
    && (!s.broken && (s.lock.None? || At(s, s.lock.value).Leaving?) ==> s.buffer == "")
  }

  predicate Inv(s: State) {
    Exclusive(s) && Closed(s) && Content(s)
  }

  lemma KeepsExclusive(s: State, a: Action)
    requires Exclusive(s) && Enabled(s, a)
    ensures Exclusive(Next(s, a))
  {
  }

  lemma MessageEnds(line: string)
    ensures Ends(Message(line))
  {
  }

  lemma KeepsClosed(s: State, a: Action)
    requires Closed(s) && Enabled(s, a)
    ensures Closed(Next(s, a))
  {
    hide Ends, Message;
    if a.Call? {
      MessageEnds(a.line);
    }
  }

  lemma CopyKeepsContent(s: State, w: Who, n: nat)
    requires Exclusive(s) && Content(s) && Enabled(s, Copy(w, n))
    ensures Content(Next(s, Copy(w, n)))
  {
    hide Joined;
    var rest := At(s, w).rest;
    assert s.wire + (s.buffer + rest[..n]) + rest[n..] == s.wire + s.buffer + rest;
  }

  lemma FailKeepsContent(s: State, w: Who, n: nat)
    requires Exclusive(s) && Content(s) && Enabled(s, Fail(w, n))
    ensures Content(Next(s, Fail(w, n)))
  {
    hide Joined;
    if s.broken {
      assert s.wire + s.buffer[..n] == s.wire;
    } else {
      assert s.wire + s.buffer + Unwritten(s) == s.wire + s.buffer[..n] + (s.buffer[n..] + Unwritten(s));
    }
  }

  lemma KeepsContent(s: State, a: Action)
    requires Exclusive(s) && Content(s) && Enabled(s, a)
    ensures Content(Next(s, a))
  {
    hide Joined;
    match a
    case Lock(w) => JoinedAppend(s.started, At(s, w).message);
    case Copy(w, n) => CopyKeepsContent(s, w, n);
    case Fail(w, n) => FailKeepsContent(s, w, n);
    case Spill(_) | Flush(_) => assert s.wire + s.buffer + "" == s.wire + s.buffer;
    case _ =>
  }

  lemma KeepsInv(s: State, a: Action)
    requires Inv(s) && Enabled(s, a)
    ensures Inv(Next(s, a))
  {
    hide Exclusive, Closed, Content;
    KeepsExclusive(s, a);
    KeepsClosed(s, a);
    KeepsContent(s, a);
  }

  lemma {:induction false} RunKeepsInv(s: State, run: seq<Action>)
    requires Inv(s) && Valid(s, run)
    ensures Inv(End(s, run))
    decreases |run|
  {
    hide Inv, Next, Enabled;
    if run != [] {
      assert Enabled(s, run[0]);
      KeepsInv(s, run[0]);
      RunKeepsInv(Next(s, run[0]), run[1..]);
    }
  }

  /**
   In every interleaving the two writers never overlap, and what the client has received is a prefix of the
   messages in the order in which their writers took the lock, each whole and closed by CRLF. While no write
   has failed, every message whose call has returned has arrived completely.
   */
  lemma ClientSeesWholeMessages(run: seq<Action>)
    requires Valid(Init, run)
    ensures var s := End(Init, run);
            && !(Inside(s.handler) && Inside(s.relay))
            && s.wire <= Joined(s.started)
            && (!s.broken && s.lock.None? ==> s.wire == Joined(s.started))
            && forall i :: 0 <= i < |s.started| ==> Ends(s.started[i])
  {
    assert Inv(Init);
    RunKeepsInv(Init, run);
  }
  // ---------------------------------------------------------------- what the calls of a run say

  /** The line each writer was last called with, and the lines of those calls that got the lock, in that order. */
  datatype Said = Said(handler: string, relay: string, lines: seq<string>)

  function Hear(t: Said, a: Action): Said {
    match a
    case Call(Handler, line) => t.(handler := line)
    case Call(Relay, line) => t.(relay := line)
    case Lock(Handler) => t.(lines := t.lines + [t.handler])
    case Lock(Relay) => t.(lines := t.lines + [t.relay])
    case _ => t
  }

  function Heard(run: seq<Action>, t: Said): Said {
    if run == [] then t else Heard(run[1..], Hear(t, run[0]))
  }

  /** The lines as a client reads them, each followed by CRLF. */
  function AsRead(lines: seq<string>): string {
    if lines == [] then "" else lines[0] + "\r\n" + AsRead(lines[1..])
  }

  predicate Hears(s: State, t: Said) {
    && |s.started| == |t.lines|
    && (forall i :: 0 <= i < |t.lines| ==> s.started[i] == t.lines[i] + "\r\n")
    && (s.handler.Waiting? ==> s.handler.message == t.handler + "\r\n")
    && (s.relay.Waiting? ==> s.relay.message == t.relay + "\r\n")
  }

  lemma HearsStep(s: State, a: Action, t: Said)
    requires Hears(s, t) && Enabled(s, a)
    ensures Hears(Next(s, a), Hear(t, a))
  {
  }

  lemma {:induction false} HearsRun(s: State, run: seq<Action>, t: Said)
    requires Hears(s, t) && Valid(s, run)
    ensures Hears(End(s, run), Heard(run, t))
    decreases |run|
  {
    hide Hears, Next, Enabled, Hear;
    if run != [] {
      assert Enabled(s, run[0]);
      HearsStep(s, run[0], t);
      HearsRun(Next(s, run[0]), run[1..], Hear(t, run[0]));
    }
  }

  lemma {:induction false} JoinedAsRead(started: seq<string>, lines: seq<string>)
    requires |started| == |lines| && forall i :: 0 <= i < |lines| ==> started[i] == lines[i] + "\r\n"
    ensures Joined(started) == AsRead(lines)
  {
    if lines != [] {
      JoinedAsRead(started[1..], lines[1..]);
    }
  }

  /**
   The client reads what the calls say: a prefix of the lines of the calls in the order in which they got the lock,
   each followed by CRLF, and exactly these while no write has failed and no call is under way.
   */
  lemma ClientReadsTheLines(run: seq<Action>)
    requires Valid(Init, run)
    ensures var s, lines := End(Init, run), Heard(run, Said("", "", [])).lines;
            s.wire <= AsRead(lines) && (!s.broken && s.lock.None? ==> s.wire == AsRead(lines))
  {
    var s, t := End(Init, run), Heard(run, Said("", "", []));
    HearsRun(Init, run, Said("", "", []));
    ClientSeesWholeMessages(run);
    JoinedAsRead(s.started, t.lines);
  }
}

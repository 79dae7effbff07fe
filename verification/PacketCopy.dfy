/** The copy loop of one direction of a data transfer. */
module PacketCopy {

  newtype byte = x: int | 0 <= x < 256

  const BUFFER_SIZE := 4096

  datatype ReadError = NoError | EndOfFile | Failure

  /** What the world answers in one turn of the loop. */
  datatype Turn = Turn(
    closed: bool,                    // the handler has been closed meanwhile
    data: seq<byte>,                 // the bytes src.Read delivers
    err: ReadError,                  // the error it delivers with them
    accepted: nat)                   // how many of them dst.Write takes; fewer than offered is a write error

  predicate Possible(t: Turn) {
    |t.data| <= BUFFER_SIZE
  }

  /** dst takes fewer bytes than it is offered. */
  predicate Refused(t: Turn) {
    t.accepted < |t.data|
  }

  /** A turn after which the loop goes on. */
  predicate Plain(t: Turn) {
    t.err == NoError && !Refused(t)
  }

  /** All bytes that these turns read. */
  function Bytes(turns: seq<Turn>): seq<byte> {
    if turns == [] then [] else Bytes(turns[..|turns| - 1]) + turns[|turns| - 1].data
  }

  lemma BytesStep(turns: seq<Turn>, k: nat)
    requires k < |turns|
    ensures Bytes(turns[..k + 1]) == Bytes(turns[..k]) + turns[k].data
  {
    assert turns[..k + 1][..k] == turns[..k];
  }

  lemma BytesNone(turns: seq<Turn>)
    ensures Bytes(turns[..0]) == []
  {
  }

  /** src.Read(buff): the bytes land at the start of the buffer, the rest of it keeps what it held. */
  method Fill(buff: array<byte>, data: seq<byte>)
    requires |data| <= buff.Length
    modifies buff
    ensures buff[..|data|] == data && buff[|data|..] == old(buff[|data|..])
  {
    forall i | 0 <= i < |data| {
      buff[i] := data[i];
    }
  }

  /** The receiving connection. */
  class Sink {
    var received: seq<byte>
    var eof: bool
    var open: bool

    constructor ()
      ensures received == [] && !eof && open
    {
      received, eof, open := [], false, true;
    }

    /** Takes the first `accepted` bytes; succeeds when that is all of them. */
    method Write(data: seq<byte>, accepted: nat) returns (ok: bool)
      modifies this`received
      ensures ok <==> accepted >= |data|
      ensures received == old(received) + if ok then data else data[..accepted]
    {
      ok := accepted >= |data|;
      received := received + if ok then data else data[..accepted];
    }
  }

  datatype Stop = Closed | WriteFailed | ReadFailed | SourceEnded | StillRunning

  /**
   copyPackets. `used` reads were made before the loop stopped for the reason given. Whatever happens, what dst
   has received is a prefix of what was read from src, and it is all of it unless a write failed. The end of
   src is passed on only after every byte before it. The turns determine where the loop stops and why.
   */
  method CopyPackets(dst: Sink, turns: seq<Turn>) returns (stop: Stop, used: nat)
    requires forall i :: 0 <= i < |turns| ==> Possible(turns[i])
    requires !dst.eof
    modifies dst
    ensures used <= |turns|
    ensures old(dst.received) <= dst.received <= old(dst.received) + Bytes(turns[..used])
    ensures stop != WriteFailed ==> dst.received == old(dst.received) + Bytes(turns[..used])
    ensures dst.eof <==> stop == SourceEnded
    ensures dst.open == (old(dst.open) && stop != WriteFailed)
    ensures forall i :: 0 <= i < used ==> !turns[i].closed && (i < used - 1 ==> Plain(turns[i]))
    ensures stop == Closed ==> used < |turns| && turns[used].closed
    ensures stop == StillRunning ==> used == |turns|
    ensures stop == Closed || stop == StillRunning ==> used > 0 ==> Plain(turns[used - 1])
    ensures stop == SourceEnded ==> used > 0 && turns[used - 1].err == EndOfFile && !Refused(turns[used - 1])
    ensures stop == ReadFailed ==> used > 0 && turns[used - 1].err == Failure && !Refused(turns[used - 1])
    ensures stop == WriteFailed ==>
      && used > 0 && Refused(turns[used - 1])
      && dst.received == old(dst.received) + Bytes(turns[..used - 1])
                       + turns[used - 1].data[..turns[used - 1].accepted]
    ensures (forall i :: 0 <= i < |turns| ==> !turns[i].closed && Plain(turns[i])) ==> stop == StillRunning
  {
    hide Bytes;
    var buff := new byte[BUFFER_SIZE](i => 0);
    used, stop := 0, StillRunning;
    BytesNone(turns);
    while used < |turns|
      invariant used <= |turns| && buff.Length == BUFFER_SIZE && fresh(buff)
      invariant dst.received == old(dst.received) + Bytes(turns[..used]) && !dst.eof
      invariant dst.open == old(dst.open)
      invariant forall i :: 0 <= i < used ==> Plain(turns[i]) && !turns[i].closed
    {
      var turn := turns[used];
      if turn.closed {
        return Closed, used;
      }
      var n := |turn.data|;
      Fill(buff, turn.data);
      BytesStep(turns, used);
      used := used + 1;
      if n > 0 {
        var ok := dst.Write(buff[..n], turn.accepted);
        if !ok {
          dst.open := false;
          return WriteFailed, used;
        }
      }
      if turn.err == EndOfFile {
        dst.eof := true;
        return SourceEnded, used;
      } else if turn.err == Failure {
        return ReadFailed, used;
      }
    }
  }
}

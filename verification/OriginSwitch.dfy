/**
 The origin-switch protocol of one client session: the client command loop C, the relay loop R and the
 reader goroutines D that share one proxyServer. One action is one channel rendezvous, one read or write
 of a shared flag, one write of a shared connection field, or one line read from an origin. Memory is
 sequentially consistent. The text of lines is abstracted: whatever a line may say, the reader may treat it
 as a login reply or not, and as a dropped line, a single-line reply or the opening of a multi-line reply.
 */
module OriginSwitch {
  import opened Options

  /** The idx-th line received on the gen-th dialled origin connection; connection 0 is the session's first. */
  datatype Line = Line(gen: nat, idx: nat)

  /** A reply as it is handed over on the channel `read`. */
  type Frame = seq<Line>

  /** Where the client command loop stands. Idle is a command boundary. */
  datatype CPc =
    | Idle | Ended
    | Suspended                      // inside AUTH, PBSZ or PROT
    | UserCheck                      // handleUSER reads isLoggedin
    | AddrCheck | LoginCheck | PassCheck | SuspendAgain
    | OfferStop | AwaitStopDone
    | Dial | SetReader | Header | Banner | Replay
    | ResetStop(ok: bool) | OfferResult(ok: bool) | Resume(ok: bool)
    | Unsuspend | Return
    | DataCheck | Attach

  /** Where the relay loop stands. Top is the entry of startProxy, Over the end of getResponseFromOrigin. */
  datatype RPc =
    | Top | TopPass
    | Loop | Relay(frame: Frame) | Ack
    | CloseErr | SetStop | CloseOld | OfferStopDone
    | AwaitDone(failed: bool)
    | CheckStop | AwaitResult
    | Over

  /** Where a reader goroutine stands. Reading(g) is blocked in ReadString on connection g. */
  datatype DPc =
    | Start | Reading(gen: nat) | Got(line: Line) | Classify(line: Line)
    | MoreStart(frame: Frame) | MoreReading(frame: Frame, gen: nat)
    | Check(frame: Frame) | Offer(frame: Frame) | AwaitAck
    | Failed | OfferErr | OfferDone | Exited

  /** The fields of the session that only C writes. */
  datatype Own = Own(
    passThrough: bool,
    handler: bool,                   // dataConnector is not nil
    deferred: bool,                  // switchOrigin deferred its own unsuspend
    origin: Option<nat>,             // s.origin
    reader: nat)                     // the connection behind s.originReader

  datatype State = State(
    c: CPc, r: RPc,
    readers: seq<DPc>,               // every reader ever spawned, in order
    own: Own,
    stop: bool,
    loggedIn: bool,
    torn: bool,                      // a Close performed for a switch found a data handler
    consumed: seq<nat>,              // lines consumed from each dialled connection
    closed: set<nat>,
    log: seq<Frame>,                 // the replies written to the client by R
    timed: bool)                     // ProxyTimeout is positive; never changes

  datatype Event = Advance | Deliver(last: bool) | Fail | Note(login: bool) | Drop | Single | Open

  datatype Action =
    | StartUser | StartSuspended | StartData | Quit
    | CStep(ok: bool)                // C's next own step; ok is the environment's answer, if it needs one
    | ReplayRead                     // C reads one more line of the TLS replay
    | RStep(ok: bool)
    | DStep(k: nat, event: Event)
    | RvStop | RvStopDone | RvRead | RvSend | RvErr | RvDone | RvResult

  function Init(timed: bool): State {
    State(Idle, Top, [], Own(true, false, false, Some(0), 0), false, false, false, [0], {}, [], timed)
  }

  // ---------------------------------------------------------------- the step relation

  /** The reader whose channels the running startProxy call holds: the one spawned last. */
  function Current(s: State): DPc {
    if |s.readers| == 0 then Exited else s.readers[|s.readers| - 1]
  }

  function WithCurrent(s: State, d: DPc): State {
    if |s.readers| == 0 then s else s.(readers := s.readers[|s.readers| - 1 := d])
  }

  function Consume(consumed: seq<nat>, g: nat): seq<nat> {
    if g < |consumed| then consumed[g := consumed[g] + 1] else consumed
  }

  predicate CanCStep(c: CPc) {
    !c.Idle? && !c.Ended? && !c.OfferStop? && !c.AwaitStopDone? && !c.OfferResult?
  }

  datatype CMove = CMove(c: CPc, own: Own, stop: bool, consumed: seq<nat>)

  function CNext(s: State, ok: bool): CMove {
    var o := s.own;
    var stay := CMove(s.c, o, s.stop, s.consumed);
    match s.c
    case Suspended => stay.(own := o.(passThrough := o.passThrough || ok), c := Return)
    case UserCheck => stay.(c := if s.loggedIn then Return else AddrCheck)
    case AddrCheck => stay.(c := if ok then LoginCheck else Return)
    case LoginCheck => stay.(c := if s.loggedIn then Return else PassCheck)
    case PassCheck =>
      if o.passThrough then stay.(own := o.(deferred := true), c := SuspendAgain) else stay.(c := OfferStop)
    case SuspendAgain => stay.(own := o.(passThrough := false), c := OfferStop)
    case Dial =>
      if ok then
        CMove(SetReader, o.(origin := Some(|s.consumed|)), s.stop, s.consumed + [0])
      else
        stay.(own := o.(origin := None), c := ResetStop(false))
    case SetReader => stay.(own := o.(reader := if |s.consumed| > 0 then |s.consumed| - 1 else 0), c := Header)
    case Header => stay.(c := if ok then Banner else ResetStop(false))
    case Banner =>
      if ok then stay.(consumed := Consume(s.consumed, o.reader), c := Replay) else stay.(c := ResetStop(false))
    case Replay => stay.(c := ResetStop(ok))
    case ResetStop(res) => stay.(stop := false, c := OfferResult(res))
    case Resume(res) =>
      stay.(own := o.(passThrough := o.passThrough || o.deferred, deferred := false),
            c := if res then Unsuspend else Return)
    case Unsuspend => stay.(own := o.(passThrough := true), c := Return)
    case Return => stay.(own := o.(passThrough := true), c := Idle)
    case DataCheck => stay.(c := if s.loggedIn then Attach else Idle)
    case Attach => stay.(own := o.(handler := o.handler || ok), c := Idle)
    case Idle | Ended | OfferStop | AwaitStopDone | OfferResult(_) => stay
  }

  predicate CanRStep(r: RPc) {
    r.Top? || r.TopPass? || r.Relay? || r.CloseErr? || r.SetStop? || r.CloseOld? || r.CheckStop?
  }

  datatype RMove = RMove(r: RPc, readers: seq<DPc>, stop: bool, torn: bool, closed: set<nat>, log: seq<Frame>)

  /** The connections closed after a Close of the proxy. */
  function CloseOrigin(s: State): set<nat> {
    if s.own.origin.Some? then s.closed + {s.own.origin.value} else s.closed
  }

  function RNext(s: State, ok: bool): RMove {
    var stay := RMove(s.r, s.readers, s.stop, s.torn, s.closed, s.log);
    match s.r
    case Top => stay.(r := if s.stop then CheckStop else TopPass)
    case TopPass =>
      if s.own.passThrough then stay.(readers := s.readers + [Start], r := Loop) else stay.(r := CheckStop)
    case Relay(f) => stay.(log := if ok then s.log + [f] else s.log, r := Ack)
    case CloseErr => stay.(closed := CloseOrigin(s), r := AwaitDone(true))
    case SetStop => stay.(stop := true, r := CloseOld)
    case CloseOld => stay.(closed := CloseOrigin(s), torn := s.torn || s.own.handler, r := OfferStopDone)
    case CheckStop => stay.(r := if s.stop then AwaitResult else Top)
    case Loop | Ack | OfferStopDone | AwaitDone(_) | AwaitResult | Over => stay
  }

  predicate CanDStep(d: DPc, e: Event) {
    match d
    case Start | MoreStart(_) | Check(_) | Failed => e.Advance?
    case Reading(_) | MoreReading(_, _) => e.Fail? || e.Deliver?
    case Got(_) => e.Note?
    case Classify(_) => e.Drop? || e.Single? || e.Open?
    case Offer(_) | AwaitAck | OfferErr | OfferDone | Exited => false
  }

  datatype DMove = DMove(d: DPc, loggedIn: bool, consumed: seq<nat>)

  /**
   The next step of D is a panic: with a line just read it resets the deadline of s.origin, which is nil after a
   failed dial.
   */
  predicate Panics(s: State, d: DPc) {
    s.timed && d.Got? && s.own.origin.None?
  }

  /** The line a read on connection g delivers next. */
  function NextLine(s: State, g: nat): Line {
    Line(g, if g < |s.consumed| then s.consumed[g] else 0)
  }

  function DNext(s: State, d: DPc, e: Event): DMove {
    var stay := DMove(d, s.loggedIn, s.consumed);
    match d
    case Start => stay.(d := Reading(s.own.reader))
    case Reading(g) =>
      if e.Fail? then stay.(d := Failed) else stay.(consumed := Consume(s.consumed, g), d := Got(NextLine(s, g)))
    case Got(l) => stay.(loggedIn := s.loggedIn || (e.Note? && e.login), d := Classify(l))
    case Classify(l) => stay.(d := if e.Drop? then Start else if e.Single? then Check([l]) else MoreStart([l]))
    case MoreStart(f) => stay.(d := MoreReading(f, s.own.reader))
    case MoreReading(f, g) =>
      if e.Fail? then stay.(d := OfferErr)
      else
        var f' := f + [NextLine(s, g)];
        stay.(consumed := Consume(s.consumed, g), d := if e.Deliver? && e.last then Check(f') else MoreStart(f'))
    case Check(f) => stay.(d := if s.own.passThrough then Offer(f) else Start)
    case Failed => stay.(d := if s.stop then OfferDone else OfferErr)
    case Offer(_) | AwaitAck | OfferErr | OfferDone | Exited => stay
  }

  predicate Enabled(s: State, a: Action) {
    match a
    case StartUser | StartSuspended | StartData | Quit => s.c.Idle?
    case CStep(_) => CanCStep(s.c)
    case ReplayRead => s.c.Replay?
    case RStep(_) => CanRStep(s.r)
    case DStep(k, e) => k < |s.readers| && CanDStep(s.readers[k], e) && !Panics(s, s.readers[k])
    case RvStop => s.c.OfferStop? && s.r.Loop?
    case RvStopDone => s.c.AwaitStopDone? && s.r.OfferStopDone?
    case RvRead => s.r.Loop? && Current(s).Offer?
    case RvSend => s.r.Ack? && Current(s).AwaitAck?
    case RvErr => s.r.Loop? && Current(s).OfferErr?
    case RvDone => s.r.AwaitDone? && Current(s).OfferDone?
    case RvResult => s.c.OfferResult? && s.r.AwaitResult?
  }

  function Next(s: State, a: Action): State
    requires Enabled(s, a)
  {
    match a
    case StartUser => s.(own := s.own.(passThrough := false), c := UserCheck)
    case StartSuspended => s.(own := s.own.(passThrough := false), c := Suspended)
    case StartData => s.(c := DataCheck)
    case Quit => s.(c := Ended)
    case CStep(ok) =>
      var m := CNext(s, ok);
      s.(c := m.c, own := m.own, stop := m.stop, consumed := m.consumed)
    case ReplayRead => s.(consumed := Consume(s.consumed, s.own.reader))
    case RStep(ok) =>
      var m := RNext(s, ok);
      s.(r := m.r, readers := m.readers, stop := m.stop, torn := m.torn, closed := m.closed, log := m.log)
    case DStep(k, e) =>
      var m := DNext(s, s.readers[k], e);
      s.(readers := s.readers[k := m.d], loggedIn := m.loggedIn, consumed := m.consumed)
    case RvStop => s.(c := AwaitStopDone, r := SetStop)
    case RvStopDone => s.(c := Dial, r := AwaitDone(false))
    case RvRead => WithCurrent(s, AwaitAck).(r := Relay(Current(s).frame))
    case RvSend => WithCurrent(s, Start).(r := Loop)
    case RvErr => WithCurrent(s, OfferDone).(r := CloseErr)
    case RvDone => WithCurrent(s, Exited).(r := if s.r.failed then Over else CheckStop)
    case RvResult => s.(c := Resume(s.c.ok), r := if s.c.ok then Top else Over)
  }

  /** The actions of `run` can be taken one after the other from s. */
  predicate Valid(s: State, run: seq<Action>)
    decreases |run|
  {
    run == [] || (Enabled(s, run[0]) && Valid(Next(s, run[0]), run[1..]))
  }

  /** The state in which `run` ends. */
  function End(s: State, run: seq<Action>): State
    requires Valid(s, run)
    decreases |run|
  {
    if run == [] then s else End(Next(s, run[0]), run[1..])
  }

  ghost predicate Reachable(s: State) {
    exists run :: Valid(Init(s.timed), run) && End(Init(s.timed), run) == s
  }

  // ---------------------------------------------------------------- what a relayed log must look like

  predicate Before(a: Line, b: Line) {
    a.gen < b.gen || (a.gen == b.gen && a.idx < b.idx)
  }

  /** Consecutive lines of one connection. */
  predicate Pure(f: Frame) {
    |f| > 0 && forall i :: 0 <= i < |f| ==> f[i] == Line(f[0].gen, f[0].idx + i)
  }

  /** No line of a switched-to origin's opening line. */
  predicate NoBanner(f: Frame)
    requires |f| > 0
  {
    f[0].gen > 0 ==> f[0].idx > 0
  }

  predicate Follows(log: seq<Frame>, l: Line) {
    forall i :: 0 <= i < |log| ==> |log[i]| > 0 && Before(log[i][|log[i]| - 1], l)
  }

  /** Every relayed reply comes whole from one connection, never holds a banner, and follows all earlier ones. */
  predicate Clean(log: seq<Frame>) {
    && (forall i :: 0 <= i < |log| ==> Pure(log[i]) && NoBanner(log[i]))
    && (forall i, j :: 0 <= i < j < |log| ==> Before(log[i][|log[i]| - 1], log[j][0]))
  }

  // ---------------------------------------------------------------- the invariant

  /** C has stopped the relay loop and has not yet told it how the switch went. */
  predicate Switching(c: CPc) {
    c.AwaitStopDone? || Dialling(c)
  }

  /** C owns the origin connection: R has answered stopChanDone and waits. */
  predicate Dialling(c: CPc) {
    c.Dial? || c.SetReader? || c.Header? || c.Banner? || c.Replay? || c.ResetStop? || c.OfferResult?
  }

  predicate Muted(c: CPc) {
    Switching(c) || c.Resume? || c.Unsuspend?
  }

  predicate Suspending(c: CPc) {
    Muted(c) || c.Suspended? || c.UserCheck? || c.AddrCheck? || c.LoginCheck? || c.PassCheck? || c.OfferStop?
  }

  /** R is inside a startProxy call that spawned a reader and has not yet received `done`. */
  predicate InCall(r: RPc) {
    r.Loop? || r.Relay? || r.Ack? || r.CloseErr? || r.SetStop? || r.CloseOld? || r.OfferStopDone? || r.AwaitDone?
  }

  predicate Stopping(r: RPc) {
    r.SetStop? || r.CloseOld? || r.OfferStopDone?
  }

  predicate Waiting(r: RPc) {
    r == AwaitDone(false) || r.CheckStop? || r.AwaitResult? || r.Top? || r.TopPass?
  }

  predicate Serving(r: RPc) {
    || r.Top? || r.TopPass? || r.Loop? || r.Relay? || r.Ack?
    || r.CloseErr? || r == AwaitDone(true) || r.CheckStop? || r.Over?
  }

  /** Who may be where. */
  predicate Phases(s: State) {
    && (s.c.AwaitStopDone? <==> Stopping(s.r))
    && (Dialling(s.c) ==> Waiting(s.r))
    && (!Switching(s.c) ==> Serving(s.r))
    && (s.c.Resume? ==> if s.c.ok then Idling(s.r) else s.r.Over?)
    && (s.c.Unsuspend? ==> Idling(s.r))
    && (s.stop <==> s.r.CloseOld? || s.r.OfferStopDone? || (Dialling(s.c) && !s.c.OfferResult?))
    && (Dialling(s.c) && (s.r.Top? || s.r.TopPass?) ==> s.c.OfferResult?)
    && (s.c.OfferResult? ==> !s.stop)
  }

  predicate Idling(r: RPc) {
    r.Top? || r.TopPass? || r.CheckStop?
  }

  /** The flags only C writes. */
  predicate Flags(s: State) {
    && !s.own.deferred && !s.c.SuspendAgain?
    && (!s.c.Return? ==> (s.own.passThrough <==> !Suspending(s.c)))
  }

  /** At most one reader lives, and only inside the startProxy call that spawned it. */
  predicate OneReader(s: State) {
    && (forall k :: 0 <= k < |s.readers| - 1 ==> s.readers[k].Exited?)
    && (InCall(s.r) <==> !Current(s).Exited?)
    && (Current(s).AwaitAck? <==> s.r.Relay? || s.r.Ack?)
  }

  predicate Connections(s: State) {
    && |s.consumed| == s.own.reader + (if s.c.SetReader? then 2 else 1)
    && (!Dialling(s.c) && s.r != Over ==> s.own.origin == Some(s.own.reader))
    && (s.c.Dial? ==> s.own.origin == Some(s.own.reader))
    && (s.c.SetReader? ==> s.own.origin == Some(s.own.reader + 1))
    && (s.c.Header? || s.c.Banner? || s.c.Replay? || s.c == ResetStop(true) || s.c == OfferResult(true) ==>
          s.own.origin == Some(s.own.reader))
    && (s.r == AwaitDone(true) ==> s.own.reader in s.closed)
    && (s.r.OfferStopDone? || (s.r == AwaitDone(false) && (s.c.Dial? || s.c.SetReader?)) ==> s.own.reader in s.closed)
  }

  /** The login latch guards the data handler. */
  predicate Latch(s: State) {
    && (s.own.handler || s.c.Attach? ==> s.loggedIn)
    && (s.c.PassCheck? || s.c.OfferStop? || Switching(s.c) ==> !s.own.handler)
    && !s.torn
  }

  /** A frame that follows the log and whose last line is the latest one consumed from connection g. */
  predicate Fresh(g: nat, consumed: seq<nat>, log: seq<Frame>, f: Frame) {
    Pure(f) && NoBanner(f) && f[0].gen == g < |consumed| && f[0].idx + |f| == consumed[g] && Follows(log, f[0])
  }

  predicate FreshReader(g: nat, consumed: seq<nat>, log: seq<Frame>, d: DPc) {
    match d
    case Reading(gen) => gen == g
    case Got(l) => Fresh(g, consumed, log, [l])
    case Classify(l) => Fresh(g, consumed, log, [l])
    case MoreStart(f) => Fresh(g, consumed, log, f)
    case MoreReading(f, gen) => gen == g && Fresh(g, consumed, log, f)
    case Check(f) => Fresh(g, consumed, log, f)
    case Offer(f) => Fresh(g, consumed, log, f)
    case _ => true
  }

  predicate Logs(s: State) {
    && s.own.reader < |s.consumed|
    && Clean(s.log)
    && Follows(s.log, Line(s.own.reader, s.consumed[s.own.reader]))
    && (s.r.Relay? ==> Fresh(s.own.reader, s.consumed, s.log, s.r.frame))
    && (!Switching(s.c) && InCall(s.r) ==> FreshReader(s.own.reader, s.consumed, s.log, Current(s)))
    && (!Switching(s.c) && s.r != Over && s.own.reader > 0 ==> s.consumed[s.own.reader] > 0)
    && ((s.c.Replay? || (s.c.ResetStop? && s.c.ok) || (s.c.OfferResult? && s.c.ok)) ==> s.consumed[s.own.reader] > 0)
  }

  predicate Inv(s: State) {
    Phases(s) && Flags(s) && OneReader(s) && Connections(s) && Latch(s) && Logs(s)
  }

  // ---------------------------------------------------------------- every step keeps the invariant

  lemma CStepIs(s: State, ok: bool)
    requires Enabled(s, CStep(ok))
    ensures CanCStep(s.c)
    ensures var m := CNext(s, ok);
            Next(s, CStep(ok)) == s.(c := m.c, own := m.own, stop := m.stop, consumed := m.consumed)
  {
  }

  lemma RStepIs(s: State, ok: bool)
    requires Enabled(s, RStep(ok))
    ensures CanRStep(s.r)
    ensures var m := RNext(s, ok);
            Next(s, RStep(ok)) == s.(r := m.r, readers := m.readers, stop := m.stop, torn := m.torn,
                                     closed := m.closed, log := m.log)
  {
  }

  lemma KeepsPhasesR(s: State, ok: bool)
    requires Phases(s) && Flags(s) && Enabled(s, RStep(ok))
    ensures Phases(Next(s, RStep(ok)))
  {
    hide Enabled, Next;
    RStepIs(s, ok);
  }

  lemma KeepsPhasesC(s: State, ok: bool)
    requires Phases(s) && Enabled(s, CStep(ok))
    ensures Phases(Next(s, CStep(ok)))
  {
    hide Enabled, Next, CanCStep;
    CStepIs(s, ok);
    match s.c
    case Dial | SetReader | Header | Banner | Replay | ResetStop(_) =>
    case Resume(_) | Unsuspend | Return =>
    case _ =>
  }

  lemma KeepsPhases(s: State, a: Action)
    requires Phases(s) && Flags(s) && Enabled(s, a)
    ensures Phases(Next(s, a))
  {
    hide CNext, RNext, DNext, CanDStep, CanCStep, CanRStep;
    match a
    case CStep(ok) => KeepsPhasesC(s, ok);
    case RStep(ok) => KeepsPhasesR(s, ok);
    case _ =>
  }

  lemma KeepsFlagsC(s: State, ok: bool)
    requires Flags(s) && Enabled(s, CStep(ok))
    ensures Flags(Next(s, CStep(ok)))
  {
    hide Enabled, Next;
    CStepIs(s, ok);
    match s.c
    case Dial | SetReader | Header | Banner | Replay | ResetStop(_) =>
    case Resume(_) | Unsuspend | Return =>
    case _ =>
  }

  lemma KeepsFlags(s: State, a: Action)
    requires Flags(s) && Enabled(s, a)
    ensures Flags(Next(s, a))
  {
    hide CNext, RNext, DNext, CanDStep;
    match a
    case CStep(ok) => KeepsFlagsC(s, ok);
    case _ =>
  }

  lemma KeepsOneReaderR(s: State, ok: bool)
    requires OneReader(s) && Enabled(s, RStep(ok))
    ensures OneReader(Next(s, RStep(ok)))
  {
    hide CNext, DNext;
  }

  lemma KeepsOneReaderD(s: State, k: nat, e: Event)
    requires OneReader(s) && Enabled(s, DStep(k, e))
    ensures OneReader(Next(s, DStep(k, e)))
  {
    hide CNext, RNext;
    assert !s.readers[k].Exited? && k == |s.readers| - 1;
  }

  lemma KeepsOneReader(s: State, a: Action)
    requires OneReader(s) && Enabled(s, a)
    ensures OneReader(Next(s, a))
  {
    hide CNext, RNext, DNext;
    match a
    case RStep(ok) => KeepsOneReaderR(s, ok);
    case DStep(k, e) => KeepsOneReaderD(s, k, e);
    case _ =>
  }

  lemma KeepsConnectionsC(s: State, ok: bool)
    requires Phases(s) && Connections(s) && Enabled(s, CStep(ok)) && Dialling(s.c)
    ensures Connections(Next(s, CStep(ok)))
  {
    hide RNext, DNext;
    match s.c
    case Dial =>
    case SetReader =>
    case Banner =>
    case _ =>
  }

  lemma LeavesConnections(s: State, ok: bool)
    requires Enabled(s, CStep(ok)) && !Dialling(s.c)
    ensures !Dialling(CNext(s, ok).c)
    ensures CNext(s, ok).own.origin == s.own.origin && CNext(s, ok).own.reader == s.own.reader
    ensures CNext(s, ok).consumed == s.consumed
  {
  }

  lemma KeepsConnections(s: State, a: Action)
    requires Phases(s) && Connections(s) && Enabled(s, a)
    ensures Connections(Next(s, a))
  {
    match a
    case CStep(ok) =>
      hide CNext, RNext, DNext;
      if Dialling(s.c) {
        KeepsConnectionsC(s, ok);
      } else {
        LeavesConnections(s, ok);
      }
    case DStep(k, e) =>
      hide CNext, RNext;
      assert |Next(s, a).consumed| == |s.consumed|;
    case RStep(_) => hide CNext, DNext;
    case _ => hide CNext, RNext, DNext;
  }

  lemma KeepsLatchC(s: State, ok: bool)
    requires Flags(s) && Latch(s) && Enabled(s, CStep(ok))
    ensures Latch(Next(s, CStep(ok)))
  {
    hide Enabled, Next, CanCStep;
    CStepIs(s, ok);
  }

  lemma KeepsLatchR(s: State, ok: bool)
    requires Phases(s) && Latch(s) && Enabled(s, RStep(ok))
    ensures Latch(Next(s, RStep(ok)))
  {
    hide Enabled, Next;
    RStepIs(s, ok);
  }

  lemma KeepsLatch(s: State, a: Action)
    requires Phases(s) && Flags(s) && Latch(s) && Enabled(s, a)
    ensures Latch(Next(s, a))
  {
    hide CNext, RNext;
    match a
    case CStep(ok) => KeepsLatchC(s, ok);
    case RStep(ok) => KeepsLatchR(s, ok);
    case DStep(k, e) => assert s.loggedIn ==> Next(s, a).loggedIn;
    case _ =>
  }

  // The log. Nothing is claimed about the reader while C is switching: it may then read lines of either
  // connection, but R has left its loop and takes nothing from it any more.

  lemma FollowsLater(log: seq<Frame>, a: Line, b: Line)
    requires Follows(log, a) && (Before(a, b) || a == b)
    ensures Follows(log, b)
  {
  }

  lemma RelayExtends(g: nat, consumed: seq<nat>, log: seq<Frame>, f: Frame)
    requires Clean(log) && Fresh(g, consumed, log, f)
    ensures Clean(log + [f]) && Follows(log + [f], Line(g, consumed[g]))
  {
    var all := log + [f];
    assert Before(f[|f| - 1], Line(g, consumed[g]));
    assert forall i :: 0 <= i < |log| ==> Before(all[i][|all[i]| - 1], f[0]) && all[i] == log[i];
  }

  lemma FirstLine(g: nat, consumed: seq<nat>, log: seq<Frame>)
    requires g < |consumed| && (g > 0 ==> consumed[g] > 0) && Follows(log, Line(g, consumed[g]))
    ensures Fresh(g, Consume(consumed, g), log, [Line(g, consumed[g])])
  {
  }

  lemma MoreLine(g: nat, consumed: seq<nat>, log: seq<Frame>, f: Frame)
    requires Fresh(g, consumed, log, f)
    ensures Fresh(g, Consume(consumed, g), log, f + [Line(g, consumed[g])])
  {
  }

  lemma KeepsLogsC(s: State, ok: bool)
    requires Phases(s) && Connections(s) && Logs(s) && Enabled(s, CStep(ok))
    ensures Logs(Next(s, CStep(ok)))
  {
    hide RNext, DNext, Clean, Follows, Fresh, FreshReader;
    var n := Next(s, CStep(ok));
    match s.c
    case Dial => assert n.consumed[s.own.reader] == s.consumed[s.own.reader];
    case SetReader | Banner =>
      FollowsLater(s.log, Line(s.own.reader, s.consumed[s.own.reader]), Line(n.own.reader, n.consumed[n.own.reader]));
    case _ =>
  }

  lemma KeepsLogsR(s: State, ok: bool)
    requires Phases(s) && Flags(s) && OneReader(s) && Logs(s) && Enabled(s, RStep(ok))
    ensures Logs(Next(s, RStep(ok)))
  {
    hide Enabled, Next, Clean, Follows, Fresh;
    RStepIs(s, ok);
    match s.r
    case Relay(f) => RelayExtends(s.own.reader, s.consumed, s.log, f);
    case _ =>
  }

  lemma KeepsLogsD(s: State, k: nat, e: Event)
    requires OneReader(s) && Logs(s) && Enabled(s, DStep(k, e))
    ensures Logs(Next(s, DStep(k, e)))
  {
    hide CNext, RNext, Clean, Follows, Fresh;
    var g := s.own.reader;
    var n := Next(s, DStep(k, e));
    FollowsLater(s.log, Line(g, s.consumed[g]), Line(g, n.consumed[g]));
    if !Switching(s.c) && e.Deliver? {
      match s.readers[k] {
        case Reading(_) => FirstLine(g, s.consumed, s.log);
        case MoreReading(f, _) => MoreLine(g, s.consumed, s.log, f);
      }
    }
  }

  lemma KeepsLogs(s: State, a: Action)
    requires Inv(s) && Enabled(s, a)
    ensures Logs(Next(s, a))
  {
    hide CNext, RNext, DNext, CanDStep, Clean, Follows, Fresh;
    match a
    case CStep(ok) => KeepsLogsC(s, ok);
    case RStep(ok) => KeepsLogsR(s, ok);
    case DStep(k, e) => KeepsLogsD(s, k, e);
    case ReplayRead =>
      var g := s.own.reader;
      FollowsLater(s.log, Line(g, s.consumed[g]), Line(g, s.consumed[g] + 1));
    case _ =>
  }

  lemma KeepsInv(s: State, a: Action)
    requires Inv(s) && Enabled(s, a)
    ensures Inv(Next(s, a))
  {
    hide CNext, RNext, DNext, CanDStep, Next;
    KeepsPhases(s, a);
    KeepsFlags(s, a);
    KeepsOneReader(s, a);
    KeepsConnections(s, a);
    KeepsLatch(s, a);
    KeepsLogs(s, a);
  }

  lemma {:induction false} RunKeepsInv(s: State, run: seq<Action>)
    requires Inv(s) && Valid(s, run)
    ensures Inv(End(s, run))
    decreases |run|
  {
    hide Inv, Next;
    if run != [] {
      KeepsInv(s, run[0]);
      RunKeepsInv(Next(s, run[0]), run[1..]);
    }
  }

  lemma ReachableInv(s: State)
    requires Reachable(s)
    ensures Inv(s)
  {
    hide Enabled, Next;
    assert Inv(Init(s.timed));
    var run :| Valid(Init(s.timed), run) && End(Init(s.timed), run) == s;
    RunKeepsInv(Init(s.timed), run);
  }

  // ---------------------------------------------------------------- safety over whole runs

  /**
   Generation purity: in every interleaving, with any number of switches, each relayed reply is made of
   consecutive lines of one connection, replies are relayed in the order of their lines, no line is relayed
   twice, generations never decrease, and the opening line of a switched-to origin is never relayed.
   */
  lemma RelayIsPure(s: State)
    requires Reachable(s)
    ensures Clean(s.log)
  {
    ReachableInv(s);
  }

  // ---------------------------------------------------------------- what the client gets to read

  /**
   What an observer of the actions knows: the reply D is reading, whether it is whole, the one D offers, the one
   R has taken and is about to write, and what has been written.
   */
  datatype Watch = Watch(seen: Frame, whole: bool, offered: Frame, taken: Frame, written: seq<Frame>)

  const UNWATCHED := Watch([], false, [], [], [])

  /** The line D receives: the next one of the connection it reads. */
  function Received(s: State, k: nat): Line {
    if k >= |s.readers| then Line(0, 0)
    else match s.readers[k]
         case Reading(g) => NextLine(s, g)
         case MoreReading(_, g) => NextLine(s, g)
         case _ => Line(0, 0)
  }

  /**
   A reply grows by every line received until one that is complete by itself or closes it; the next step of D offers
   it if the relay is on and forgets it if not. R takes what is offered, and its next step writes it or fails to.
   */
  function Observe(w: Watch, s: State, a: Action): Watch {
    match a
    case DStep(k, Deliver(last)) => w.(whole := w.seen != [] && last, seen := w.seen + [Received(s, k)])
    case DStep(_, Single) => w.(whole := true)
    case DStep(_, Drop) => w.(seen := [])
    case DStep(_, Fail) => w.(seen := [])
    case DStep(_, Advance) =>
      if !w.whole then w else w.(offered := if s.own.passThrough then w.seen else [], seen := [], whole := false)
    case RvRead => w.(taken := w.offered, offered := [])
    case RStep(ok) => if w.taken == [] then w else w.(written := w.written + if ok then [w.taken] else [], taken := [])
    case _ => w
  }

  function Watched(s: State, run: seq<Action>, w: Watch): Watch
    requires Valid(s, run)
    decreases |run|
  {
    if run == [] then w else Watched(Next(s, run[0]), run[1..], Observe(w, s, run[0]))
  }

  /** The reader's part of what the observer knows. */
  predicate SeesReader(d: DPc, w: Watch) {
    match d
    case Got(l) => w.seen == [l] && !w.whole && w.offered == []
    case Classify(l) => w.seen == [l] && !w.whole && w.offered == []
    case MoreStart(f) => w.seen == f != [] && !w.whole && w.offered == []
    case MoreReading(f, _) => w.seen == f != [] && !w.whole && w.offered == []
    case Check(f) => w.seen == f != [] && w.whole && w.offered == []
    case Offer(f) => w.seen == [] && !w.whole && w.offered == f != []
    case _ => w.seen == [] && !w.whole && w.offered == []
  }

  predicate SeesRelay(r: RPc, w: Watch) {
    if r.Relay? then w.taken == r.frame != [] else w.taken == []
  }

  predicate Sees(s: State, w: Watch) {
    SeesReader(Current(s), w) && SeesRelay(s.r, w) && w.written == s.log
  }

  lemma SeesC(s: State, ok: bool, w: Watch)
    requires Sees(s, w) && Enabled(s, CStep(ok))
    ensures Sees(Next(s, CStep(ok)), Observe(w, s, CStep(ok)))
  {
    hide CNext, Enabled, Next;
    CStepIs(s, ok);
  }

  lemma SeesR(s: State, ok: bool, w: Watch)
    requires OneReader(s) && Sees(s, w) && Enabled(s, RStep(ok))
    ensures Sees(Next(s, RStep(ok)), Observe(w, s, RStep(ok)))
  {
    hide Enabled, Next;
    RStepIs(s, ok);
    assert s.log + [] == s.log;
  }

  lemma SeesD(s: State, k: nat, e: Event, w: Watch)
    requires OneReader(s) && Sees(s, w) && Enabled(s, DStep(k, e))
    ensures Sees(Next(s, DStep(k, e)), Observe(w, s, DStep(k, e)))
  {
    hide CNext, RNext;
    assert !s.readers[k].Exited? && k == |s.readers| - 1;
    assert [] + [Received(s, k)] == [Received(s, k)];
  }

  lemma SeesStep(s: State, a: Action, w: Watch)
    requires OneReader(s) && Sees(s, w) && Enabled(s, a)
    ensures Sees(Next(s, a), Observe(w, s, a))
  {
    hide CNext, RNext, DNext, CanCStep, CanRStep, CanDStep;
    match a
    case CStep(ok) => SeesC(s, ok, w);
    case RStep(ok) => SeesR(s, ok, w);
    case DStep(k, e) => SeesD(s, k, e, w);
    case _ =>
  }

  lemma {:induction false} SeesRun(s: State, run: seq<Action>, w: Watch)
    requires Inv(s) && Sees(s, w) && Valid(s, run)
    ensures Sees(End(s, run), Watched(s, run, w))
    decreases |run|
  {
    hide Next, Sees, Observe, Logs, Latch, Flags, Connections, Phases, OneReader;
    if run != [] {
      SeesStep(s, run[0], w);
      KeepsInv(s, run[0]);
      SeesRun(Next(s, run[0]), run[1..], Observe(w, s, run[0]));
    }
  }

  /**
   Nothing else is written and nothing is lost: in every run the client has been written exactly the replies that
   were read to their end while the relay was on and taken by R, less those whose write failed, in that order; and
   a reply is offered to R exactly when it was so read and not yet taken.
   */
  lemma RelayIsComplete(timed: bool, run: seq<Action>)
    requires Valid(Init(timed), run)
    ensures var s, w := End(Init(timed), run), Watched(Init(timed), run, UNWATCHED);
            && s.log == w.written
            && (Current(s).Offer? <==> w.offered != []) && (Current(s).Offer? ==> Current(s).frame == w.offered)
            && (s.r.Relay? <==> w.taken != []) && (s.r.Relay? ==> s.r.frame == w.taken)
  {
    assert Inv(Init(timed)) && Sees(Init(timed), UNWATCHED);
    hide Inv;
    SeesRun(Init(timed), run, UNWATCHED);
  }

  // ---------------------------------------------------------------- which lines have been read

  function CountOf(consumed: seq<nat>, g: nat): nat {
    if g < |consumed| then consumed[g] else 0
  }

  /** The action reads a line of connection g: D receives one, or C reads a banner or a line of the replay. */
  predicate Reads(s: State, a: Action, g: nat) {
    && g < |s.consumed|
    && match a
       case DStep(k, e) =>
         && e.Deliver? && k < |s.readers|
         && (s.readers[k] == Reading(g) || (s.readers[k].MoreReading? && s.readers[k].gen == g))
       case CStep(ok) => s.c.Banner? && ok && s.own.reader == g
       case ReplayRead => s.own.reader == g
       case _ => false
  }

  function LinesRead(s: State, run: seq<Action>, g: nat): nat
    requires Valid(s, run)
    decreases |run|
  {
    if run == [] then 0 else (if Reads(s, run[0], g) then 1 else 0) + LinesRead(Next(s, run[0]), run[1..], g)
  }

  lemma CountStepC(s: State, ok: bool, g: nat)
    requires Enabled(s, CStep(ok))
    ensures CountOf(Next(s, CStep(ok)).consumed, g) == CountOf(s.consumed, g) + if Reads(s, CStep(ok), g) then 1 else 0
  {
    hide Enabled, Next;
    CStepIs(s, ok);
  }

  lemma CountStep(s: State, a: Action, g: nat)
    requires Enabled(s, a)
    ensures CountOf(Next(s, a).consumed, g) == CountOf(s.consumed, g) + if Reads(s, a, g) then 1 else 0
  {
    hide CNext, RNext;
    match a
    case CStep(ok) => CountStepC(s, ok, g);
    case DStep(k, e) =>
    case _ => hide DNext, CanDStep;
  }

  /** The numbering of lines is that of the reads: of every connection as many lines are consumed as were read. */
  lemma {:induction false} ConsumedIsRead(s: State, run: seq<Action>, g: nat)
    requires Valid(s, run)
    ensures CountOf(End(s, run).consumed, g) == CountOf(s.consumed, g) + LinesRead(s, run, g)
    decreases |run|
  {
    hide Next, Reads, CountOf;
    if run != [] {
      CountStep(s, run[0], g);
      ConsumedIsRead(Next(s, run[0]), run[1..], g);
    }
  }

  // ---------------------------------------------------------------- what sets the latch and the handler

  /** The session is logged in exactly when D has read a login reply. */
  lemma {:induction false} LoggedInIff(s: State, run: seq<Action>)
    requires Valid(s, run)
    ensures End(s, run).loggedIn <==>
      s.loggedIn || exists i :: 0 <= i < |run| && run[i].DStep? && run[i].event == Note(true)
    decreases |run|
  {
    hide Next;
    if run != [] {
      LoginStep(s, run[0]);
      LoggedInIff(Next(s, run[0]), run[1..]);
      var login := Next(s, run[0]).loggedIn;
      if s.loggedIn || (run[0].DStep? && run[0].event == Note(true)) {
      } else if i :| 0 <= i < |run| && run[i].DStep? && run[i].event == Note(true) {
        assert run[1..][i - 1] == run[i];
      } else {
        assert forall i :: 0 <= i < |run| - 1 ==> run[1..][i] == run[i + 1];
      }
    }
  }

  lemma LoginStep(s: State, a: Action)
    requires Enabled(s, a)
    ensures Next(s, a).loggedIn <==> s.loggedIn || (a.DStep? && a.event == Note(true))
  {
    hide CNext, RNext;
  }

  /** How often C has attached a data handler. */
  function Attached(s: State, run: seq<Action>): nat
    requires Valid(s, run)
    decreases |run|
  {
    if run == [] then 0
    else (if s.c.Attach? && run[0] == CStep(true) then 1 else 0) + Attached(Next(s, run[0]), run[1..])
  }

  /** There is a data handler exactly when C has attached one. */
  lemma {:induction false} HandlerIff(s: State, run: seq<Action>)
    requires Valid(s, run)
    ensures End(s, run).own.handler <==> s.own.handler || Attached(s, run) > 0
    decreases |run|
  {
    hide Next;
    if run != [] {
      HandlerStep(s, run[0]);
      HandlerIff(Next(s, run[0]), run[1..]);
    }
  }

  lemma HandlerStep(s: State, a: Action)
    requires Enabled(s, a)
    ensures Next(s, a).own.handler <==> s.own.handler || (s.c.Attach? && a == CStep(true))
  {
    hide CNext, RNext, DNext, CanDStep;
    match a
    case CStep(ok) => HandlerStepC(s, ok);
    case _ =>
  }

  lemma HandlerStepC(s: State, ok: bool)
    requires Enabled(s, CStep(ok))
    ensures Next(s, CStep(ok)).own.handler <==> s.own.handler || (s.c.Attach? && ok)
  {
    hide Enabled, Next;
    CStepIs(s, ok);
  }

  /**
   Single reader: at most one reader goroutine lives, only inside an active startProxy call, and it has
   exited before the outcome of a switch is received and until C resumes the relay.
   */
  lemma SingleReader(s: State)
    requires Reachable(s)
    ensures forall j, k :: 0 <= j < k < |s.readers| ==> s.readers[j].Exited? || s.readers[k].Exited?
    ensures (exists k :: 0 <= k < |s.readers| && !s.readers[k].Exited?) <==> InCall(s.r)
    ensures s.r.AwaitResult? || s.c.Resume? || s.c.Unsuspend? ==>
      forall k :: 0 <= k < |s.readers| ==> s.readers[k].Exited?
  {
    ReachableInv(s);
    if InCall(s.r) {
      assert !s.readers[|s.readers| - 1].Exited?;
    }
  }

  /** Relay order: while R writes a reply and until it acknowledges it, no reader reads another line. */
  lemma RelayBeforeNextLine(s: State)
    requires Reachable(s) && (s.r.Relay? || s.r.Ack?)
    ensures forall k :: 0 <= k < |s.readers| ==> s.readers[k].AwaitAck? || s.readers[k].Exited?
  {
    ReachableInv(s);
  }

  /** When an error of the reader has ended its startProxy call, its connection is closed. */
  lemma ErrorCloses(s: State)
    requires Reachable(s) && s.r == AwaitDone(true)
    ensures s.own.origin == Some(s.own.reader) && s.own.reader in s.closed
  {
    ReachableInv(s);
  }

  /** C asks whether dialling, the proxy header, reading the banner, or the TLS replay succeeded. */
  predicate Asks(c: CPc) {
    c.Dial? || c.Header? || c.Banner? || c.Replay?
  }

  /** The answers C got in the switch it is in, oldest first: those of the run since the last receipt of stopChan. */
  function Answers(s: State, run: seq<Action>, before: seq<bool>): seq<bool>
    requires Valid(s, run)
    decreases |run|
  {
    if run == [] then before
    else
      var now := if run[0].RvStop? then [] else if run[0].CStep? && Asks(s.c) then before + [run[0].ok] else before;
      Answers(Next(s, run[0]), run[1..], now)
  }

  const ALL_WELL := [true, true, true, true]

  /** What C has been answered so far at each point of switchOrigin. */
  predicate Answered(c: CPc, answers: seq<bool>) {
    match c
    case AwaitStopDone | Dial => answers == []
    case SetReader | Header => answers == [true]
    case Banner => answers == [true, true]
    case Replay => answers == [true, true, true]
    case ResetStop(ok) => ok <==> answers == ALL_WELL
    case OfferResult(ok) => ok <==> answers == ALL_WELL
    case _ => true
  }

  lemma AnsweredStepC(s: State, ok: bool, answers: seq<bool>)
    requires Answered(s.c, answers) && Enabled(s, CStep(ok))
    ensures Answered(Next(s, CStep(ok)).c, if Asks(s.c) then answers + [ok] else answers)
  {
    hide Enabled, Next;
    CStepIs(s, ok);
    assert s.c.Replay? && ok ==> answers + [ok] == ALL_WELL;
    assert |answers| == 3 && answers + [ok] == ALL_WELL ==> (answers + [ok])[3] == ok;
  }

  lemma AnsweredStep(s: State, a: Action, answers: seq<bool>)
    requires Answered(s.c, answers) && Enabled(s, a) && !a.RvStop?
    ensures Answered(Next(s, a).c, if a.CStep? && Asks(s.c) then answers + [a.ok] else answers)
  {
    hide CNext, RNext, DNext, CanDStep, CanRStep, CanCStep, Asks;
    if a.CStep? {
      AnsweredStepC(s, a.ok, answers);
    }
  }

  lemma {:induction false} AnsweredRun(s: State, run: seq<Action>, answers: seq<bool>)
    requires Valid(s, run) && Answered(s.c, answers)
    ensures Answered(End(s, run).c, Answers(s, run, answers))
    decreases |run|
  {
    hide Next, Answered, Asks;
    if run != [] {
      if run[0].RvStop? {
        assert Answered(AwaitStopDone, []) by { FirstAnswer(); }
        StopStarts(s);
        AnsweredRun(Next(s, run[0]), run[1..], []);
      } else {
        AnsweredStep(s, run[0], answers);
        AnsweredRun(Next(s, run[0]), run[1..], if run[0].CStep? && Asks(s.c) then answers + [run[0].ok] else answers);
      }
    }
  }

  lemma FirstAnswer()
    ensures Answered(AwaitStopDone, [])
  {
  }

  lemma StopStarts(s: State)
    requires Enabled(s, RvStop)
    ensures Next(s, RvStop).c == AwaitStopDone
  {
  }

  /**
   The value offered on waitSwitching is true exactly when dialling, the proxy header, reading the banner and the
   TLS replay were each answered with success since stopChan was taken, and then the reader will use the newest
   connection, past its banner.
   */
  lemma ResultIsTruthful(timed: bool, run: seq<Action>)
    requires Valid(Init(timed), run) && End(Init(timed), run).c.OfferResult?
    ensures var s := End(Init(timed), run);
            && (s.c.ok <==> Answers(Init(timed), run, []) == ALL_WELL)
            && (s.c.ok ==>
                  s.own.origin == Some(s.own.reader) && s.own.reader == |s.consumed| - 1
                  && s.consumed[s.own.reader] > 0)
  {
    RunKeepsInv(Init(timed), run);
    AnsweredRun(Init(timed), run, []);
  }

  /** Every state on the way is Muted: C has not yet turned the relay on again. */
  predicate MutedThroughout(s: State, run: seq<Action>)
    requires Valid(s, run)
    decreases |run|
  {
    Muted(s.c) && (run != [] ==> MutedThroughout(Next(s, run[0]), run[1..]))
  }

  lemma MutedStep(s: State, a: Action)
    requires Inv(s) && Muted(s.c) && Enabled(s, a)
    ensures Next(s, a).log == s.log
  {
    hide CNext, DNext, CanDStep;
  }

  lemma {:induction false} MutedRun(s: State, run: seq<Action>)
    requires Inv(s) && Valid(s, run) && MutedThroughout(s, run)
    ensures End(s, run).log == s.log
    decreases |run|
  {
    hide Inv, Next;
    if run != [] {
      MutedStep(s, run[0]);
      KeepsInv(s, run[0]);
      MutedRun(Next(s, run[0]), run[1..]);
    }
  }

  /** Silent window: from the receipt of stopChan until C unsuspends, nothing is relayed to the client. */
  lemma SilentWindow(s: State, run: seq<Action>)
    requires Reachable(s) && Enabled(s, RvStop)
    requires Valid(Next(s, RvStop), run) && MutedThroughout(Next(s, RvStop), run)
    ensures End(Next(s, RvStop), run).log == s.log
  {
    ReachableInv(s);
    KeepsInv(s, RvStop);
    MutedRun(Next(s, RvStop), run);
  }

  lemma OverStep(s: State, a: Action)
    requires s.r.Over? && Enabled(s, a)
    ensures Next(s, a).r.Over? && Next(s, a).log == s.log
  {
    hide CNext, DNext, CanDStep;
  }

  lemma {:induction false} OverIsForever(s: State, run: seq<Action>)
    requires s.r.Over? && Valid(s, run)
    ensures End(s, run).r.Over? && End(s, run).log == s.log
    decreases |run|
  {
    hide Next;
    if run != [] {
      OverStep(s, run[0]);
      OverIsForever(Next(s, run[0]), run[1..]);
    }
  }

  /** When R receives false on waitSwitching, no reply is ever relayed again in the session. */
  lemma FailedSwitchIsSilent(s: State, run: seq<Action>)
    requires Enabled(s, RvResult) && !s.c.ok && Valid(Next(s, RvResult), run)
    ensures End(Next(s, RvResult), run).log == s.log
  {
    OverIsForever(Next(s, RvResult), run);
  }

  /** The data handler exists only after login, and the Close performed for a switch never found one. */
  lemma SwitchSparesDataHandler(s: State)
    requires Reachable(s)
    ensures s.own.handler ==> s.loggedIn
    ensures s.r.CloseOld? ==> !s.own.handler
    ensures !s.torn
  {
    ReachableInv(s);
  }

  /** C is past the login check of a switch that has not yet stopped the relay. */
  predicate Committed(c: CPc) {
    c.PassCheck? || c.SuspendAgain? || c.OfferStop?
  }

  lemma LatchStep(s: State, a: Action)
    requires s.loggedIn && !Committed(s.c) && Enabled(s, a)
    ensures !a.RvStop? && Next(s, a).loggedIn && !Committed(Next(s, a).c)
  {
    hide RNext;
    match a
    case CStep(ok) =>
    case _ =>
  }

  /** Login latch: isLoggedin never returns to false, and no switch begins after it was seen set. */
  lemma {:induction false} LoginIsFinal(s: State, run: seq<Action>)
    requires s.loggedIn && !Committed(s.c) && Valid(s, run)
    ensures End(s, run).loggedIn && RvStop !in run
    decreases |run|
  {
    hide Next;
    if run != [] {
      LatchStep(s, run[0]);
      LoginIsFinal(Next(s, run[0]), run[1..]);
    }
  }

  /** Whether the last USER found an origin for its user. */
  function Found(s: State, run: seq<Action>, before: bool): bool
    requires Valid(s, run)
    decreases |run|
  {
    if run == [] then before
    else
      var now := if run[0].StartUser? then false else if run[0].CStep? && s.c.AddrCheck? then run[0].ok else before;
      Found(Next(s, run[0]), run[1..], now)
  }

  /** C is in a USER command past the lookup of its address. */
  predicate PastLookup(c: CPc) {
    c.LoginCheck? || Committed(c) || Muted(c)
  }

  lemma LookupStepC(s: State, ok: bool)
    requires Enabled(s, CStep(ok)) && PastLookup(Next(s, CStep(ok)).c)
    ensures PastLookup(s.c) || (s.c.AddrCheck? && ok)
  {
    hide Enabled, Next;
    CStepIs(s, ok);
  }

  lemma LookupStep(s: State, a: Action)
    requires Enabled(s, a) && PastLookup(Next(s, a).c)
    ensures !a.StartUser? && (PastLookup(s.c) || (s.c.AddrCheck? && a == CStep(true)))
  {
    hide CNext, RNext, DNext, CanCStep, CanRStep, CanDStep;
    match a
    case CStep(ok) => LookupStepC(s, ok);
    case _ =>
  }

  lemma {:induction false} LookupRun(s: State, run: seq<Action>, found: bool)
    requires Valid(s, run) && (PastLookup(s.c) ==> found)
    ensures PastLookup(End(s, run).c) ==> Found(s, run, found)
    decreases |run|
  {
    hide Next, PastLookup;
    if run != [] {
      var now := if run[0].StartUser? then false else if run[0].CStep? && s.c.AddrCheck? then run[0].ok else found;
      if PastLookup(Next(s, run[0]).c) {
        LookupStep(s, run[0]);
        LookupIsFirst(s.c);
      }
      LookupRun(Next(s, run[0]), run[1..], now);
    }
  }

  lemma LookupIsFirst(c: CPc)
    ensures c.AddrCheck? ==> !PastLookup(c)
  {
  }

  /** The relay is stopped only for a user whose origin was found. */
  lemma SwitchNeedsAddress(timed: bool, run: seq<Action>)
    requires Valid(Init(timed), run) && PastLookup(End(Init(timed), run).c)
    ensures Found(Init(timed), run, false)
  {
    LookupRun(Init(timed), run, false);
  }

  /** PBSZ and PROT turn the relay on before they return exactly if they pass their line on. */
  lemma EarlyUnsuspendIff(s: State, ok: bool)
    requires Reachable(s) && s.c.Suspended?
    ensures Next(s, CStep(ok)).c.Return? && (Next(s, CStep(ok)).own.passThrough <==> ok)
  {
    ReachableInv(s);
    hide Logs, Latch, Connections, Phases, OneReader;
    CStepIs(s, ok);
  }

  /** C is at no point of a USER command beyond its first check. */
  predicate Settled(c: CPc) {
    c.Idle? || c.Ended? || c.Suspended? || c.UserCheck? || c.Return? || c.DataCheck? || c.Attach?
  }

  lemma SettledStep(s: State, a: Action)
    requires s.loggedIn && Settled(s.c) && Enabled(s, a)
    ensures Next(s, a).loggedIn && Settled(Next(s, a).c)
  {
    hide RNext;
    match a
    case CStep(ok) =>
    case _ => hide CNext;
  }

  /** Once logged in, no further USER gets past its first check, whatever address the middleware has set. */
  lemma {:induction false} SecondUserIsRefused(s: State, run: seq<Action>)
    requires s.loggedIn && Settled(s.c) && Valid(s, run)
    ensures Settled(End(s, run).c)
    decreases |run|
  {
    hide Next, Settled;
    if run != [] {
      SettledStep(s, run[0]);
      SecondUserIsRefused(Next(s, run[0]), run[1..]);
    }
  }

  // ---------------------------------------------------------------- progress: exactly when a switch can complete

  /** C offers stopChan, or has stopped the relay loop and has not yet told it how the switch went. */
  predicate Underway(c: CPc) {
    c.OfferStop? || Switching(c)
  }

  /** R is in its loop and will come to receive stopChan, unless an error of the reader comes first. */
  predicate Receptive(s: State) {
    (s.r.Loop? || s.r.Relay? || s.r.Ack?) && !Current(s).OfferErr?
  }

  /**
   The dead ends of a switch. C offers stopChan to an R that has ended, that spins outside its loop because C has
   turned the relay off, or whose reader offers an error. Or C has cleared `stop` while R has not yet seen it
   set. Or R has left its loop while the reader is parked at `read <-` or `errchan <-`, which only that loop
   receives. Or the process is about to panic.
   */
  predicate Doomed(s: State) {
    || (s.c.OfferStop? && !Receptive(s))
    || (s.c.OfferResult? && !s.r.AwaitResult?)
    || ((Stopping(s.r) || s.r == AwaitDone(false)) && (Current(s).Offer? || Current(s).OfferErr?))
    || (Switching(s.c) && Panics(s, Current(s)))
  }

  /** Some continuation delivers the outcome of the switch to R. */
  ghost predicate Completable(s: State) {
    exists run :: Valid(s, run) && RvResult in run
  }

  lemma DoomedStepC(s: State, ok: bool)
    requires Inv(s) && Underway(s.c) && Doomed(s) && Enabled(s, CStep(ok))
    ensures Underway(Next(s, CStep(ok)).c) && Doomed(Next(s, CStep(ok)))
  {
    hide Logs, Latch, Next, Enabled;
    CStepIs(s, ok);
  }

  lemma DoomedStepD(s: State, k: nat, e: Event)
    requires Inv(s) && Underway(s.c) && Doomed(s) && Enabled(s, DStep(k, e))
    ensures Underway(Next(s, DStep(k, e)).c) && Doomed(Next(s, DStep(k, e)))
  {
    hide Logs, Latch, Connections, CNext, RNext;
  }

  lemma DoomedStep(s: State, a: Action)
    requires Inv(s) && Underway(s.c) && Doomed(s) && Enabled(s, a)
    ensures !a.RvResult? && Underway(Next(s, a).c) && Doomed(Next(s, a))
  {
    hide Logs, Latch, Connections, CNext, CanDStep;
    match a
    case CStep(ok) => DoomedStepC(s, ok);
    case DStep(k, e) => DoomedStepD(s, k, e);
    case _ => hide DNext;
  }

  lemma {:induction false} DoomedRun(s: State, run: seq<Action>)
    requires Inv(s) && Underway(s.c) && Doomed(s) && Valid(s, run)
    ensures RvResult !in run
    decreases |run|
  {
    hide Inv, Next, Doomed;
    if run != [] {
      DoomedStep(s, run[0]);
      KeepsInv(s, run[0]);
      DoomedRun(Next(s, run[0]), run[1..]);
    }
  }

  /** How far the reader, the relay loop and the command loop are from the rendezvous on waitSwitching. */
  function ReaderRank(d: DPc): nat {
    match d
    case Got(_) => 10
    case Classify(_) | Offer(_) => 9
    case MoreStart(_) => 8
    case MoreReading(_, _) => 7
    case Check(_) | AwaitAck => 6
    case Start => 5
    case Reading(_) => 4
    case Failed => 3
    case OfferDone => 2
    case OfferErr | Exited => 0
  }

  function RelayRank(r: RPc): nat {
    match r
    case SetStop => 5
    case CloseOld => 4
    case OfferStopDone => 3
    case AwaitDone(_) | Relay(_) => 2
    case CheckStop | Ack => 1
    case _ => 0
  }

  function CommandRank(c: CPc): nat {
    match c
    case OfferStop => 14
    case AwaitStopDone => 8
    case Dial => 7
    case SetReader => 6
    case Header => 5
    case Banner => 4
    case Replay => 3
    case ResetStop(_) => 2
    case OfferResult(_) => 1
    case _ => 0
  }

  function Distance(s: State): nat {
    ReaderRank(Current(s)) + RelayRank(s.r) + CommandRank(s.c)
  }

  /** An action that brings a switch that is not doomed closer to its end. */
  function Rescue(s: State): Action {
    match s.r
    case Loop => if Current(s).Offer? then RvRead else RvStop
    case Ack => RvSend
    case OfferStopDone => RvStopDone
    case AwaitDone(_) =>
      if Current(s).OfferDone? || |s.readers| == 0 then RvDone
      else
        DStep(|s.readers| - 1, match Current(s)
                               case Reading(_) => Fail
                               case Got(_) => Note(false)
                               case Classify(_) => Drop
                               case MoreReading(_, _) => Deliver(true)
                               case _ => Advance)
    case AwaitResult => if s.c.OfferResult? then RvResult else CStep(true)
    case _ => RStep(true)
  }

  predicate Rescued(s: State, a: Action) {
    && Enabled(s, a)
    && (a.RvResult? || (Underway(Next(s, a).c) && !Doomed(Next(s, a)) && Distance(Next(s, a)) < Distance(s)))
  }

  lemma RescueReader(s: State)
    requires Phases(s) && Flags(s) && OneReader(s) && Switching(s.c) && !Doomed(s) && s.r.AwaitDone?
    ensures Rescued(s, Rescue(s))
  {
    hide CNext, RNext;
  }

  lemma RescueCommand(s: State)
    requires Phases(s) && OneReader(s) && Switching(s.c) && !Doomed(s) && s.r.AwaitResult?
    ensures Rescued(s, Rescue(s))
  {
    hide RNext, DNext;
  }

  lemma RescueOffer(s: State)
    requires Phases(s) && OneReader(s) && Connections(s) && s.c.OfferStop? && !Doomed(s)
    ensures Rescued(s, Rescue(s))
  {
    hide CNext, DNext, CanDStep;
  }

  lemma RescueRelay(s: State)
    requires Phases(s) && OneReader(s) && Switching(s.c) && !Doomed(s) && !s.r.AwaitDone? && !s.r.AwaitResult?
    ensures Rescued(s, Rescue(s))
  {
    hide CNext, DNext, CanDStep, CanCStep, ReaderRank;
    match s.r
    case SetStop | CloseOld => assert Current(Next(s, RStep(true))) == Current(s);
    case _ =>
  }

  lemma RescueWorks(s: State)
    requires Inv(s) && Underway(s.c) && !Doomed(s)
    ensures Rescued(s, Rescue(s))
  {
    hide Rescued, Rescue, Logs, Latch, Connections;
    if s.c.OfferStop? {
      RescueOffer(s);
    } else {
      match s.r
      case AwaitDone(_) => RescueReader(s);
      case AwaitResult => RescueCommand(s);
      case _ => RescueRelay(s);
    }
  }

  lemma {:induction false} RescueRun(s: State) returns (run: seq<Action>)
    requires Inv(s) && Underway(s.c) && !Doomed(s)
    ensures Valid(s, run) && RvResult in run
    decreases Distance(s)
  {
    hide Inv, Next, Doomed, Distance, Rescue;
    var a := Rescue(s);
    RescueWorks(s);
    if a.RvResult? {
      run := [a];
    } else {
      KeepsInv(s, a);
      var rest := RescueRun(Next(s, a));
      run := [a] + rest;
      assert run[0] == a && run[1..] == rest;
    }
  }

  /**
   The exact condition for progress. From the moment C offers stopChan, the outcome of the switch can still be
   delivered if and only if the state is no dead end.
   */
  lemma CompletableIff(s: State)
    requires Reachable(s) && Underway(s.c)
    ensures Completable(s) <==> !Doomed(s)
  {
    ReachableInv(s);
    if Doomed(s) {
      forall run | Valid(s, run) ensures RvResult !in run {
        DoomedRun(s, run);
      }
    } else {
      var run := RescueRun(s);
      assert Valid(s, run) && RvResult in run;
    }
  }

  // ---------------------------------------------------------------- progress: how long a switch can take

  /** The run can be taken and none of the states after its actions is a dead end. */
  predicate Evades(s: State, run: seq<Action>)
    decreases |run|
  {
    run == [] || (Enabled(s, run[0]) && !Doomed(Next(s, run[0])) && Evades(Next(s, run[0]), run[1..]))
  }

  predicate Delivers(a: Action) {
    a.DStep? && a.event.Deliver?
  }

  function ReplayReads(run: seq<Action>): nat {
    if run == [] then 0 else (if run[0].ReplayRead? then 1 else 0) + ReplayReads(run[1..])
  }

  /** How many lines the reader receives. */
  function Deliveries(run: seq<Action>): nat {
    if run == [] then 0 else (if Delivers(run[0]) then 1 else 0) + Deliveries(run[1..])
  }

  /** What one action may add to the distance, plus one. */
  function Charge(a: Action): nat {
    if a.ReplayRead? then 1 else if Delivers(a) then 7 else 0
  }

  lemma EvasiveStepC(s: State, ok: bool)
    requires Inv(s) && Switching(s.c) && !Doomed(s) && Enabled(s, CStep(ok))
    ensures Switching(Next(s, CStep(ok)).c) && Distance(Next(s, CStep(ok))) < Distance(s)
  {
    hide Logs, Latch, Connections, Flags, Enabled, Next;
    CStepIs(s, ok);
  }

  lemma EvasiveStepR(s: State, ok: bool)
    requires Inv(s) && Switching(s.c) && !Doomed(s) && Enabled(s, RStep(ok))
    ensures Distance(Next(s, RStep(ok))) < Distance(s)
  {
    hide Logs, Latch, Connections, Flags, CNext, DNext;
  }

  lemma EvasiveStepD(s: State, k: nat, e: Event)
    requires Inv(s) && Switching(s.c) && !Doomed(s)
    requires Enabled(s, DStep(k, e)) && !Doomed(Next(s, DStep(k, e)))
    ensures Distance(Next(s, DStep(k, e))) + 1 <= Distance(s) + Charge(DStep(k, e))
  {
    hide Logs, Latch, Connections, CNext, RNext;
    assert !s.readers[k].Exited? && k == |s.readers| - 1;
  }

  /** Every step that leads into no dead end brings the rendezvous nearer, but for lines that are read. */
  lemma EvasiveStep(s: State, a: Action)
    requires Inv(s) && Switching(s.c) && !Doomed(s) && Enabled(s, a) && !Doomed(Next(s, a)) && !a.RvResult?
    ensures Switching(Next(s, a).c) && Distance(Next(s, a)) + 1 <= Distance(s) + Charge(a)
  {
    hide Logs, Latch, Connections, Flags, CNext, RNext, DNext, CanDStep;
    match a
    case CStep(ok) => EvasiveStepC(s, ok);
    case RStep(ok) => EvasiveStepR(s, ok);
    case DStep(k, e) => EvasiveStepD(s, k, e);
    case _ =>
  }

  lemma {:induction false} EvasiveRun(s: State, run: seq<Action>)
    requires Inv(s) && Switching(s.c) && !Doomed(s) && Evades(s, run) && RvResult !in run
    ensures Valid(s, run) && Inv(End(s, run)) && Switching(End(s, run).c) && !Doomed(End(s, run))
    ensures |run| <= Distance(s) + ReplayReads(run) + 7 * Deliveries(run)
    decreases |run|
  {
    hide Inv, Next, Doomed, Distance, Delivers;
    if run != [] {
      EvasiveStep(s, run[0]);
      KeepsInv(s, run[0]);
      EvasiveRun(Next(s, run[0]), run[1..]);
    }
  }

  lemma DistanceAtStop(s: State)
    requires Inv(s) && Enabled(s, RvStop)
    ensures Inv(Next(s, RvStop)) && Switching(Next(s, RvStop).c) && Distance(Next(s, RvStop)) <= 23
  {
    hide CNext, RNext, DNext, CanDStep;
    KeepsInv(s, RvStop);
  }

  /**
   Once stopChan is taken, every run that stays out of the dead ends reaches the waitSwitching rendezvous within 23
   steps, not counting the lines of the TLS replay, and at most 7 more for each line the reader receives.
   */
  lemma SwitchIsShort(s: State, run: seq<Action>)
    requires Reachable(s) && Enabled(s, RvStop) && !Doomed(Next(s, RvStop))
    requires Evades(Next(s, RvStop), run) && RvResult !in run
    ensures |run| <= 23 + ReplayReads(run) + 7 * Deliveries(run)
  {
    hide Inv, Next, Distance, Doomed, Evades, Enabled;
    ReachableInv(s);
    DistanceAtStop(s);
    EvasiveRun(Next(s, RvStop), run);
  }

  // ---------------------------------------------------------------- progress: when a line must come

  /**
   A step for which D needs no line: a blocked read fails only once its connection is closed. What C reads and
   writes itself is taken to end one way or the other.
   */
  predicate Unaided(s: State, a: Action) {
    a.DStep? && a.k < |s.readers| ==>
      && !a.event.Deliver?
      && (a.event.Fail? && s.readers[a.k].Reading? ==> s.readers[a.k].gen in s.closed)
  }

  /** C can only wait until R sees `stop`, and R until D ends, which is blocked or amid a multi-line reply. */
  predicate AwaitsLine(s: State) {
    && s.c.ResetStop? && s.r == AwaitDone(false)
    && (Current(s).MoreReading? || (Current(s).Reading? && Current(s).gen !in s.closed))
  }

  predicate Moves(s: State, a: Action) {
    Enabled(s, a) && !Doomed(Next(s, a)) && Unaided(s, a)
  }

  /** A move of C, while the outcome is open, or else of R or D. */
  function Move(s: State): Action {
    if CanCStep(s.c) && !s.c.ResetStop? then CStep(true) else Rescue(s)
  }

  lemma MoveIsUnaided(s: State)
    requires Phases(s) && Flags(s) && OneReader(s) && Switching(s.c) && !Doomed(s) && !AwaitsLine(s)
    requires s.r.AwaitDone? && (!CanCStep(s.c) || s.c.ResetStop?)
    ensures Unaided(s, Rescue(s))
  {
    hide CNext, RNext, DNext;
  }

  lemma MoveOfC(s: State)
    requires Phases(s) && Switching(s.c) && !Doomed(s) && CanCStep(s.c) && !s.c.ResetStop?
    ensures Moves(s, CStep(true))
  {
    hide RNext, DNext, CanDStep;
  }

  lemma NoMove(s: State, a: Action)
    requires Inv(s) && AwaitsLine(s)
    ensures !Moves(s, a)
  {
    hide Logs, Latch, Connections, Flags;
    match a
    case CStep(ok) => hide DNext, RNext;
    case DStep(k, e) => hide CNext, RNext;
    case _ => hide CNext, RNext, DNext, CanDStep;
  }

  /**
   In a switch at no dead end, some step is possible for which D needs no line, except exactly when C
   is about to clear `stop` and D is blocked on a connection still open or amid a multi-line reply.
   */
  lemma StuckIff(s: State)
    requires Reachable(s) && Switching(s.c) && !Doomed(s)
    ensures (exists a :: Moves(s, a)) <==> !AwaitsLine(s)
  {
    hide Moves, AwaitsLine;
    ReachableInv(s);
    if AwaitsLine(s) {
      forall a ensures !Moves(s, a) {
        NoMove(s, a);
      }
    } else {
      MoveWorks(s);
      assert Moves(s, Move(s));
    }
  }

  lemma MoveWorks(s: State)
    requires Inv(s) && Switching(s.c) && !Doomed(s) && !AwaitsLine(s)
    ensures Moves(s, Move(s))
  {
    hide Logs, Latch, Connections, CNext, RNext, DNext;
    if CanCStep(s.c) && !s.c.ResetStop? {
      MoveOfC(s);
    } else {
      RescueWorks(s);
      RescueEvades(s);
      if s.r.AwaitDone? {
        MoveIsUnaided(s);
      }
    }
  }

  lemma RescueEvades(s: State)
    requires Inv(s) && Switching(s.c) && !Doomed(s) && Rescued(s, Rescue(s))
    ensures !Doomed(Next(s, Rescue(s)))
  {
    hide Logs, Latch, Connections, Flags, CNext, DNext, RNext;
  }

  // ---------------------------------------------------------------- progress: without any line for the reader

  /** D is between two reads or has a line in hand, and the connection it will read next is the new one. */
  predicate Strayed(s: State) {
    && Dialling(s.c) && s.own.reader !in s.closed
    && (Current(s).Start? || Current(s).Got? || Current(s).Classify? || Current(s).Check?)
  }

  predicate Amid(d: DPc) {
    d.MoreStart? || d.MoreReading?
  }

  /** D waits only on the connection being switched away. */
  predicate Armed(s: State) {
    && Switching(s.c) && !Doomed(s) && !Strayed(s) && !Amid(Current(s))
    && (Current(s).Reading? ==>
          if s.r.SetStop? || s.r.CloseOld? then s.own.origin == Some(Current(s).gen) else Current(s).gen in s.closed)
  }

  /** A step into no dead end that opens no multi-line reply and leaves no reader astray. */
  predicate Careful(s: State, a: Action) {
    && Enabled(s, a) && !Doomed(Next(s, a)) && !Strayed(Next(s, a))
    && (a.DStep? ==> !a.event.Open?)
  }

  predicate CarefulRun(s: State, run: seq<Action>)
    decreases |run|
  {
    run == [] || (Careful(s, run[0]) && CarefulRun(Next(s, run[0]), run[1..]))
  }

  lemma CarefulStepC(s: State, ok: bool)
    requires Inv(s) && Armed(s) && Careful(s, CStep(ok))
    ensures Armed(Next(s, CStep(ok)))
  {
    hide Logs, Latch, Flags, Enabled, Next;
    CStepIs(s, ok);
  }

  lemma CarefulStepR(s: State, ok: bool)
    requires Inv(s) && Armed(s) && Careful(s, RStep(ok))
    ensures Armed(Next(s, RStep(ok)))
  {
    hide Logs, Latch, Flags, CNext, DNext;
  }

  lemma CarefulStepD(s: State, k: nat, e: Event)
    requires Inv(s) && Armed(s) && Careful(s, DStep(k, e))
    ensures Armed(Next(s, DStep(k, e)))
  {
    hide Logs, Latch, CNext, RNext;
    assert !s.readers[k].Exited? && k == |s.readers| - 1;
  }

  lemma CarefulStep(s: State, a: Action)
    requires Inv(s) && Armed(s) && Careful(s, a) && !a.RvResult?
    ensures Armed(Next(s, a))
  {
    hide Logs, Latch, Flags, CNext, RNext, DNext, CanDStep;
    match a
    case CStep(ok) => CarefulStepC(s, ok);
    case RStep(ok) => CarefulStepR(s, ok);
    case DStep(k, e) => CarefulStepD(s, k, e);
    case _ =>
  }

  lemma {:induction false} CarefulRunIsArmed(s: State, run: seq<Action>)
    requires Inv(s) && Armed(s) && CarefulRun(s, run) && RvResult !in run
    ensures Evades(s, run) && Valid(s, run) && Inv(End(s, run)) && Armed(End(s, run))
    decreases |run|
  {
    hide Inv, Next, Armed, Doomed, Strayed;
    if run != [] {
      CarefulStep(s, run[0]);
      KeepsInv(s, run[0]);
      CarefulRunIsArmed(Next(s, run[0]), run[1..]);
    }
  }

  lemma ArmedAtStop(s: State)
    requires Inv(s) && Enabled(s, RvStop) && !Doomed(Next(s, RvStop)) && !Amid(Current(s))
    ensures Inv(Next(s, RvStop)) && Armed(Next(s, RvStop))
  {
    hide CNext, RNext, DNext, CanDStep;
    KeepsInv(s, RvStop);
  }

  lemma RescueReaderIsCareful(s: State)
    requires Inv(s) && Armed(s) && s.r.AwaitDone?
    ensures Careful(s, Rescue(s)) && Unaided(s, Rescue(s))
  {
    hide Logs, Latch, CNext, RNext;
    RescueWorks(s);
  }

  lemma RescueOtherIsCareful(s: State)
    requires Inv(s) && Armed(s) && !s.r.AwaitDone?
    ensures Careful(s, Rescue(s)) && Unaided(s, Rescue(s))
  {
    hide Logs, Latch, Flags, CNext, DNext, CanDStep, Distance;
    RescueWorks(s);
  }

  lemma NeverStuck(s: State)
    requires Inv(s) && Armed(s)
    ensures Careful(s, Rescue(s)) && Unaided(s, Rescue(s))
  {
    hide Inv, Armed, Careful, Unaided, Rescue;
    if s.r.AwaitDone? {
      RescueReaderIsCareful(s);
    } else {
      RescueOtherIsCareful(s);
    }
  }

  /**
   Progress without any line for D. If D is not amid a multi-line reply when stopChan is taken, then in every run that
   stays out of the dead ends, in which D opens no multi-line reply, and in which C renews the reader only while D is
   blocked on the old connection or past its last read and D takes no line after that, the rendezvous comes within
   the same bound, and until then a further such step is always possible for which D needs no line.
   */
  lemma SwitchCompletes(s: State, run: seq<Action>)
    requires Reachable(s) && Enabled(s, RvStop) && !Doomed(Next(s, RvStop)) && !Amid(Current(s))
    requires CarefulRun(Next(s, RvStop), run) && RvResult !in run
    ensures |run| <= 23 + ReplayReads(run) + 7 * Deliveries(run)
    ensures Valid(Next(s, RvStop), run)
    ensures exists a :: Careful(End(Next(s, RvStop), run), a) && Unaided(End(Next(s, RvStop), run), a)
  {
    hide Inv, Next, Armed, Careful, Doomed, Unaided, Enabled;
    ReachableInv(s);
    ArmedAtStop(s);
    CarefulRunIsArmed(Next(s, RvStop), run);
    SwitchIsShort(s, run);
    NeverStuck(End(Next(s, RvStop), run));
  }

  lemma {:induction false} EndAppend(s: State, run: seq<Action>, a: Action)
    requires Valid(s, run) && Enabled(End(s, run), a)
    ensures Valid(s, run + [a]) && End(s, run + [a]) == Next(End(s, run), a)
    decreases |run|
  {
    hide Next, Enabled;
    if run == [] {
      assert [a][1..] == [];
      assert Valid(s, [a]) && End(s, [a]) == End(Next(s, a), []);
    } else {
      EndAppend(Next(s, run[0]), run[1..], a);
      assert (run + [a])[1..] == run[1..] + [a];
    }
  }

  lemma TimedStays(s: State, a: Action)
    requires Enabled(s, a)
    ensures Next(s, a).timed == s.timed
  {
  }

  lemma ReachableNext(s: State, a: Action) returns (n: State)
    requires Reachable(s) && Enabled(s, a)
    ensures Reachable(n) && n == Next(s, a)
  {
    hide Enabled, Next;
    var run :| Valid(Init(s.timed), run) && End(Init(s.timed), run) == s;
    EndAppend(Init(s.timed), run, a);
    TimedStays(s, a);
    n := Next(s, a);
  }

  /** A session whose reader is blocked on the first origin. */
  lemma ReaderBlocked(timed: bool) returns (s: State)
    ensures Reachable(s)
    ensures s == State(Idle, Loop, [Reading(0)],
                       Own(true, false, false, Some(0), 0), false, false, false, [0], {}, [], timed)
  {
    assert Valid(Init(timed), []) && End(Init(timed), []) == Init(timed);
    s := ReachableNext(Init(timed), RStep(true));
    s := ReachableNext(s, RStep(true));
    s := ReachableNext(s, DStep(0, Advance));
  }

  lemma ReachableC(s: State, ok: bool) returns (n: State)
    requires Reachable(s) && CanCStep(s.c)
    ensures Reachable(n)
    ensures var m := CNext(s, ok); n == s.(c := m.c, own := m.own, stop := m.stop, consumed := m.consumed)
  {
    hide CNext;
    n := ReachableNext(s, CStep(ok));
  }

  lemma UserBegins(s: State) returns (n: State)
    requires Reachable(s) && s.c.Idle?
    ensures Reachable(n) && n == s.(c := UserCheck, own := s.own.(passThrough := false))
  {
    n := ReachableNext(s, StartUser);
  }

  /** From a command boundary before login C comes to offer stopChan. */
  lemma UserOffersStop(s: State) returns (n: State)
    requires Reachable(s) && s.c.Idle? && !s.loggedIn
    ensures Reachable(n) && n == s.(c := OfferStop, own := s.own.(passThrough := false))
  {
    n := UserBegins(s);
    hide Enabled, Next, Reachable;
    n := ReachableC(n, true);
    n := ReachableC(n, true);
    n := ReachableC(n, true);
    n := ReachableC(n, true);
  }

  /** Such a session while the client logs in. */
  lemma UserDuringRelay(timed: bool) returns (s: State)
    ensures Reachable(s)
    ensures s == State(OfferStop, Loop, [Reading(0)],
                       Own(false, false, false, Some(0), 0), false, false, false, [0], {}, [], timed)
  {
    s := ReaderBlocked(timed);
    s := UserOffersStop(s);
  }

  /** A session whose reader saw the relay on and is parked at `read <-` with the first line. */
  lemma ReplyDuringRelay(timed: bool) returns (s: State)
    ensures Reachable(s)
    ensures s == State(Idle, Loop, [Offer([Line(0, 0)])],
                       Own(true, false, false, Some(0), 0), false, false, false, [1], {}, [], timed)
  {
    hide CNext, RNext, CanCStep;
    s := ReaderBlocked(timed);
    s := ReachableNext(s, DStep(0, Deliver(true)));
    s := ReachableNext(s, DStep(0, Note(false)));
    s := ReachableNext(s, DStep(0, Single));
    s := ReachableNext(s, DStep(0, Advance));
  }

  /** USER arrives before R has looked at passThrough: R then spins outside its loop and never takes stopChan. */
  lemma SpinningRelayHangs(timed: bool) returns (s: State)
    ensures Reachable(s) && s.c.OfferStop? && s.r.Top? && !Completable(s)
  {
    assert Valid(Init(timed), []) && End(Init(timed), []) == Init(timed);
    s := UserOffersStop(Init(timed));
    CompletableIff(s);
  }

  /** The read on the first origin fails while C offers stopChan, and R has not yet taken the error. */
  lemma FailureDuringOffer(timed: bool) returns (s: State)
    ensures Reachable(s)
    ensures s == State(OfferStop, Loop, [OfferErr],
                       Own(false, false, false, Some(0), 0), false, false, false, [0], {}, [], timed)
  {
    s := UserDuringRelay(timed);
    s := ReachableNext(s, DStep(0, Fail));
    s := ReachableNext(s, DStep(0, Advance));
  }

  /** C offers stopChan while the reader is amid a multi-line reply. */
  lemma MultiLineDuringOffer(timed: bool) returns (s: State)
    ensures Reachable(s)
    ensures s == State(OfferStop, Loop, [MoreReading([Line(0, 0)], 0)],
                       Own(false, false, false, Some(0), 0), false, false, false, [1], {}, [], timed)
  {
    hide CNext, RNext, CanCStep;
    s := UserDuringRelay(timed);
    s := ReachableNext(s, DStep(0, Deliver(true)));
    s := ReachableNext(s, DStep(0, Note(false)));
    s := ReachableNext(s, DStep(0, Open));
    s := ReachableNext(s, DStep(0, Advance));
  }

  /** R takes stopChan and closes the origin connection. */
  lemma StopRelay(s: State) returns (n: State)
    requires Reachable(s) && s.c.OfferStop? && s.r.Loop? && s.own.origin.Some?
    ensures Reachable(n)
    ensures n == s.(c := AwaitStopDone, r := OfferStopDone, stop := true, torn := s.torn || s.own.handler,
                    closed := s.closed + {s.own.origin.value})
  {
    hide CNext, DNext, CanDStep;
    n := ReachableNext(s, RvStop);
    n := ReachableNext(n, RStep(true));
    n := ReachableNext(n, RStep(true));
  }

  /** The relay is stopped, the old connection closed, and the dial fails. */
  lemma StopAndFail(s: State) returns (n: State)
    requires Reachable(s) && s.c.OfferStop? && s.r.Loop? && s.own.origin.Some?
    ensures Reachable(n)
    ensures n == s.(c := ResetStop(false), r := AwaitDone(false), own := s.own.(origin := None), stop := true,
                    torn := s.torn || s.own.handler, closed := s.closed + {s.own.origin.value})
  {
    hide RNext, DNext, CanDStep;
    n := StopRelay(s);
    n := ReachableNext(n, RvStopDone);
    n := ReachableNext(n, CStep(false));
  }

  /** If the relay is stopped there and the dial fails, only a further line from the old origin averts a dead end. */
  lemma MultiLineAwaits(timed: bool) returns (s: State)
    ensures Reachable(s) && Switching(s.c) && Completable(s) && Current(s).MoreReading? && AwaitsLine(s)
  {
    s := MultiLineDuringOffer(timed);
    s := StopAndFail(s);
    CompletableIff(s);
  }

  /** From the reader's error on the switch hangs. */
  lemma ErringReaderHangs(timed: bool) returns (s: State)
    ensures Reachable(s) && s.c.OfferStop? && s.r.Loop? && !Completable(s)
  {
    s := FailureDuringOffer(timed);
    CompletableIff(s);
  }

  /** It still does when R has ended. */
  lemma EndedRelayHangs(timed: bool) returns (s: State)
    ensures Reachable(s) && s.c.OfferStop? && s.r.Over? && !Completable(s)
  {
    hide CNext, DNext, CanDStep, CanCStep;
    s := FailureDuringOffer(timed);
    s := ReachableNext(s, RvErr);
    s := ReachableNext(s, RStep(true));
    s := ReachableNext(s, RvDone);
    CompletableIff(s);
  }

  /** The reader is parked at `read <-` when R leaves its loop. */
  lemma ParkedReaderDeadlocks(timed: bool) returns (s: State)
    ensures Reachable(s) && Switching(s.c) && Current(s).Offer? && !Completable(s)
  {
    s := ReplyDuringRelay(timed);
    s := UserOffersStop(s);
    s := ReachableNext(s, RvStop);
    CompletableIff(s);
  }

  /** The same while the reader is blocked. */
  lemma FailedDial(timed: bool) returns (s: State)
    ensures Reachable(s)
    ensures s == State(ResetStop(false), AwaitDone(false), [Reading(0)],
                       Own(false, false, false, None, 0), true, false, false, [0], {0}, [], timed)
  {
    s := UserDuringRelay(timed);
    s := StopAndFail(s);
    assert {} + {0} == {0};
  }

  /** The dial fails and C clears `stop` before D and R have looked at it. */
  lemma EarlyResetDeadlocks(timed: bool) returns (s: State)
    ensures Reachable(s) && s.c == OfferResult(false) && Current(s).Reading? && !Completable(s)
  {
    s := FailedDial(timed);
    s := ReachableNext(s, CStep(true));
    CompletableIff(s);
  }

  /**
   Exactly when the process comes to its panic: D receives a line while there is no origin connection, or the dial
   fails while D has a line whose deadline it has not yet reset.
   */
  lemma PanicIff(s: State, a: Action)
    requires Reachable(s) && Enabled(s, a) && !Panics(s, Current(s))
    ensures Panics(Next(s, a), Current(Next(s, a))) <==>
      && s.timed
      && ((s.own.origin.None? && Delivers(a) && s.readers[a.k].Reading?)
          || (s.c.Dial? && a == CStep(false) && Current(s).Got?))
  {
    hide CNext, RNext, DNext, CanDStep, Logs, Latch, Flags;
    ReachableInv(s);
    match a
    case CStep(ok) => PanicIffC(s, ok);
    case RStep(ok) => PanicIffR(s, ok);
    case DStep(k, e) => PanicIffD(s, k, e);
    case _ =>
  }

  lemma PanicIffC(s: State, ok: bool)
    requires Enabled(s, CStep(ok)) && !Panics(s, Current(s))
    ensures Panics(Next(s, CStep(ok)), Current(Next(s, CStep(ok)))) <==>
      s.timed && s.c.Dial? && !ok && Current(s).Got?
  {
    hide Enabled, Next;
    CStepIs(s, ok);
  }

  lemma PanicIffR(s: State, ok: bool)
    requires Enabled(s, RStep(ok)) && !Panics(s, Current(s))
    ensures !Panics(Next(s, RStep(ok)), Current(Next(s, RStep(ok))))
  {
    hide CNext, DNext;
  }

  lemma PanicIffD(s: State, k: nat, e: Event)
    requires OneReader(s) && Enabled(s, DStep(k, e)) && !Panics(s, Current(s))
    ensures Panics(Next(s, DStep(k, e)), Current(Next(s, DStep(k, e)))) <==>
      s.timed && s.own.origin.None? && e.Deliver? && s.readers[k].Reading?
  {
    hide CNext, RNext;
    assert !s.readers[k].Exited? && k == |s.readers| - 1;
  }

  /** It happens: the dial has failed, and then a last line of the old origin arrives. */
  lemma LineAfterFailedDialPanics() returns (s: State)
    ensures Reachable(s) && Switching(s.c) && Panics(s, Current(s)) && !Completable(s)
  {
    s := FailedDial(true);
    s := ReachableNext(s, DStep(0, Deliver(true)));
    CompletableIff(s);
  }
  // ---------------------------------------------------------------- a switch that succeeds

  lemma DialStarts(timed: bool) returns (s: State)
    ensures Reachable(s)
    ensures s == State(Dial, AwaitDone(false), [Reading(0)],
                       Own(false, false, false, Some(0), 0), true, false, false, [0], {0}, [], timed)
  {
    s := UserDuringRelay(timed);
    s := StopRelay(s);
    assert {} + {0} == {0};
    s := DialTaken(s);
  }

  /** R has stopped, the old connection is closed and dialling, greeting and replay succeed, while D is blocked. */
  lemma OriginDialled(timed: bool) returns (s: State)
    ensures Reachable(s)
    ensures s == State(ResetStop(true), AwaitDone(false), [Reading(0)],
                       Own(false, false, false, Some(1), 1), true, false, false, [0, 1], {0}, [], timed)
  {
    s := DialStarts(timed);
    hide Reachable, Enabled, Next;
    s := ReachableC(s, true);
    s := ReachableC(s, true);
    s := ReachableC(s, true);
    s := ReachableC(s, true);
    s := ReachableC(s, true);
  }

  lemma DialTaken(s: State) returns (n: State)
    requires Reachable(s) && s.c.AwaitStopDone? && s.r.OfferStopDone?
    ensures Reachable(n) && n == s.(c := Dial, r := AwaitDone(false))
  {
    n := ReachableNext(s, RvStopDone);
  }

  /** D ends and R waits for the outcome. */
  lemma ReaderEnds(timed: bool) returns (s: State)
    ensures Reachable(s)
    ensures s == State(ResetStop(true), AwaitResult, [Exited],
                       Own(false, false, false, Some(1), 1), true, false, false, [0, 1], {0}, [], timed)
  {
    hide CNext;
    s := OriginDialled(timed);
    s := ReachableNext(s, DStep(0, Fail));
    s := ReachableNext(s, DStep(0, Advance));
    s := ReachableNext(s, RvDone);
    s := ReachableR(s, true);
  }

  lemma ReachableR(s: State, ok: bool) returns (n: State)
    requires Reachable(s) && CanRStep(s.r)
    ensures Reachable(n)
    ensures var m := RNext(s, ok); n == s.(r := m.r, readers := m.readers, stop := m.stop, torn := m.torn,
                                           closed := m.closed, log := m.log)
  {
    hide RNext;
    n := ReachableNext(s, RStep(ok));
  }

  lemma OutcomeGiven(s: State) returns (n: State)
    requires Reachable(s) && s.c.OfferResult? && s.c.ok && s.r.AwaitResult?
    ensures Reachable(n) && n == s.(c := Resume(true), r := Top)
  {
    n := ReachableNext(s, RvResult);
  }

  /** The outcome has been given and C is about to turn the relay on. */
  lemma OutcomeReceived(timed: bool) returns (s: State)
    ensures Reachable(s)
    ensures s == State(Unsuspend, Top, [Exited],
                       Own(false, false, false, Some(1), 1), false, false, false, [0, 1], {0}, [], timed)
  {
    s := ReaderEnds(timed);
    hide Reachable, Enabled, Next;
    s := ReachableC(s, true);
    s := OutcomeGiven(s);
    s := ReachableC(s, true);
  }

  /** The relay resumes before USER returns: R may be in its loop while C still sends USER to the new origin. */
  lemma RelayResumesEarly(timed: bool) returns (s: State)
    ensures Reachable(s) && s.c.Return? && s.r.Loop? && s.own.origin == Some(1)
  {
    s := OutcomeReceived(timed);
    hide Reachable, Enabled, Next;
    s := ReachableC(s, true);
    s := ReachableR(s, true);
    s := ReachableR(s, true);
  }

  /** C is done with USER and the relay is on again. */
  lemma RelayResumes(timed: bool) returns (s: State)
    ensures Reachable(s)
    ensures s == State(Idle, Top, [Exited],
                       Own(true, false, false, Some(1), 1), false, false, false, [0, 1], {0}, [], timed)
  {
    s := OutcomeReceived(timed);
    hide Reachable, Enabled, Next;
    s := ReachableC(s, true);
    s := ReachableC(s, true);
  }

  /** A new reader has a reply of the new origin. */
  lemma NewReplyRead(timed: bool) returns (s: State)
    ensures Reachable(s)
    ensures s == State(Idle, Loop, [Exited, Classify(Line(1, 1))],
                       Own(true, false, false, Some(1), 1), false, false, false, [0, 2], {0}, [], timed)
  {
    hide CNext;
    s := RelayResumes(timed);
    s := ReachableNext(s, RStep(true));
    s := ReachableNext(s, RStep(true));
    s := ReachableNext(s, DStep(1, Advance));
    s := ReachableNext(s, DStep(1, Deliver(true)));
    s := ReachableNext(s, DStep(1, Note(false)));
  }

  /** After a successful switch a reply of the new origin, the one after its banner, is relayed. */
  lemma SwitchedOriginIsRelayed(timed: bool) returns (s: State)
    ensures Reachable(s) && s.log == [[Line(1, 1)]] && s.own.origin == Some(1)
  {
    hide CNext;
    s := NewReplyRead(timed);
    s := ReachableNext(s, DStep(1, Single));
    s := ReachableNext(s, DStep(1, Advance));
    s := ReachableNext(s, RvRead);
    s := ReachableNext(s, RStep(true));
  }
  /** The reader has seen a login reply. */
  lemma LoginSeen(timed: bool) returns (s: State)
    ensures Reachable(s)
    ensures s == State(Idle, Loop, [Classify(Line(0, 0))],
                       Own(true, false, false, Some(0), 0), false, true, false, [1], {}, [], timed)
  {
    hide CNext, RNext;
    s := ReaderBlocked(timed);
    s := ReachableNext(s, DStep(0, Deliver(true)));
    s := ReachableNext(s, DStep(0, Note(true)));
  }

  /** After login a data command attaches a handler. */
  lemma HandlerAfterLogin(timed: bool) returns (s: State)
    ensures Reachable(s) && s.own.handler && s.c.Idle?
  {
    s := LoginSeen(timed);
    s := DataBegins(s);
    hide Reachable, Enabled, Next;
    s := ReachableC(s, true);
    s := ReachableC(s, true);
  }

  lemma DataBegins(s: State) returns (n: State)
    requires Reachable(s) && s.c.Idle?
    ensures Reachable(n) && n == s.(c := DataCheck)
  {
    n := ReachableNext(s, StartData);
  }
}

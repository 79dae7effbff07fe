/**
 Connection admission. The accept loop creates handlers one after the other and counts each with one atomic
 increment; each handler compares the count it got then with the limit at some later moment, and lowers the
 shared counter when it ends.
 */
module Admission {

  const MAX_INT32: int := 0x7FFF_FFFF

  /** Two's complement wrap-around of a 32-bit counter. */
  function Wrap32(x: int): int {
    (x + 0x8000_0000) % 0x1_0000_0000 - 0x8000_0000
  }

  /** One client handler: created with the count it was given, past the limit check or refused by it, or ended. */
  datatype Handler = Created(count: int) | Admitted(count: int) | Refused(count: int) | Ended

  datatype State = State(counter: int, handlers: seq<Handler>)

  datatype Action = Accept | CheckLimit(h: nat) | Exit(h: nat)

  const Init := State(0, [])

  predicate Live(h: Handler) {
    !h.Ended?
  }

  function LiveCount(handlers: seq<Handler>): nat {
    if handlers == [] then 0
    else LiveCount(handlers[..|handlers| - 1]) + if Live(handlers[|handlers| - 1]) then 1 else 0
  }

  function AdmittedCount(handlers: seq<Handler>): nat {
    if handlers == [] then 0
    else AdmittedCount(handlers[..|handlers| - 1]) + if handlers[|handlers| - 1].Admitted? then 1 else 0
  }

  predicate Enabled(s: State, a: Action) {
    match a
    case Accept => true
    case CheckLimit(h) => h < |s.handlers| && s.handlers[h].Created?
    case Exit(h) => h < |s.handlers| && (s.handlers[h].Admitted? || s.handlers[h].Refused?)
  }

  function Next(s: State, a: Action, limit: int): State
    requires Enabled(s, a)
  {
    match a
    case Accept =>
      var n := Wrap32(s.counter + 1);
      State(n, s.handlers + [Created(n)])
    case CheckLimit(h) =>
      var n := s.handlers[h].count;
      s.(handlers := s.handlers[h := if n > limit then Refused(n) else Admitted(n)])
    case Exit(h) => State(Wrap32(s.counter - 1), s.handlers[h := Ended])
  }

  /** The run's actions can be taken in turn, and at no time do more than `most` connections exist at once. */
  predicate Valid(s: State, run: seq<Action>, limit: int, most: nat)
    decreases |run|
  {
    && LiveCount(s.handlers) <= most
    && (run == [] || (Enabled(s, run[0]) && Valid(Next(s, run[0], limit), run[1..], limit, most)))
  }

  function End(s: State, run: seq<Action>, limit: int, most: nat): State
    requires Valid(s, run, limit, most)
    decreases |run|
  {
    if run == [] then s else End(Next(s, run[0], limit), run[1..], limit, most)
  }

  ghost predicate Reachable(s: State, limit: int, most: nat) {
    exists run :: Valid(Init, run, limit, most) && End(Init, run, limit, most) == s
  }

  function Count(h: Handler): int
    requires Live(h)
  {
    match h
    case Created(n) => n
    case Admitted(n) => n
    case Refused(n) => n
  }

  /** The count a handler keeps is at least the number of handlers up to it that are still alive. */
  predicate Inv(s: State, limit: int) {
    && s.counter == LiveCount(s.handlers)
    && (forall h :: 0 <= h < |s.handlers| && Live(s.handlers[h]) ==>
          LiveCount(s.handlers[..h + 1]) <= Count(s.handlers[h]))
    && (forall h :: 0 <= h < |s.handlers| && s.handlers[h].Admitted? ==> s.handlers[h].count <= limit)
  }

  lemma {:induction false} LiveAfterUpdate(handlers: seq<Handler>, h: nat, v: Handler)
    requires h < |handlers| && Live(handlers[h])
    ensures LiveCount(handlers[h := v]) == LiveCount(handlers) - if Live(v) then 0 else 1
  {
    var last := |handlers| - 1;
    if h == last {
      assert handlers[h := v][..last] == handlers[..last];
    } else {
      assert handlers[h := v][..last] == handlers[..last][h := v];
      LiveAfterUpdate(handlers[..last], h, v);
    }
  }

  lemma UpdateKeepsBounds(s: State, h: nat, v: Handler, limit: int)
    requires Inv(s, limit) && h < |s.handlers| && Live(s.handlers[h])
    requires Live(v) ==> Count(v) == Count(s.handlers[h])
    ensures var n := s.handlers[h := v];
            forall k :: 0 <= k < |n| && Live(n[k]) ==> LiveCount(n[..k + 1]) <= Count(n[k])
  {
    var n := s.handlers[h := v];
    forall k | 0 <= k < |n| && Live(n[k]) ensures LiveCount(n[..k + 1]) <= Count(n[k]) {
      if k < h {
        assert n[..k + 1] == s.handlers[..k + 1];
      } else {
        assert n[..k + 1] == s.handlers[..k + 1][h := v];
        LiveAfterUpdate(s.handlers[..k + 1], h, v);
      }
    }
  }

  lemma AcceptKeepsBounds(s: State, c: int, limit: int)
    requires Inv(s, limit) && c >= LiveCount(s.handlers) + 1
    ensures var n := s.handlers + [Created(c)];
            && LiveCount(n) == LiveCount(s.handlers) + 1
            && forall k :: 0 <= k < |n| && Live(n[k]) ==> LiveCount(n[..k + 1]) <= Count(n[k])
  {
    var n := s.handlers + [Created(c)];
    assert n[..|s.handlers|] == s.handlers;
    assert LiveCount(n) == LiveCount(s.handlers) + 1;
    hide LiveCount;
    forall k | 0 <= k < |n| && Live(n[k]) ensures LiveCount(n[..k + 1]) <= Count(n[k]) {
      if k < |s.handlers| {
        assert n[..k + 1] == s.handlers[..k + 1];
      } else {
        assert n[..k + 1] == n;
      }
    }
  }

  lemma CountFits(live: nat)
    requires live <= MAX_INT32
    ensures Wrap32(live) == live
  {
  }

  lemma KeepsInvAccept(s: State, limit: int)
    requires Inv(s, limit) && LiveCount(Next(s, Accept, limit).handlers) <= MAX_INT32
    ensures Inv(Next(s, Accept, limit), limit)
  {
    var n := Wrap32(s.counter + 1);
    assert (s.handlers + [Created(n)])[..|s.handlers|] == s.handlers;
    hide Wrap32;
    CountFits(LiveCount(s.handlers) + 1);
    AcceptKeepsBounds(s, n, limit);
  }

  lemma KeepsInvCheck(s: State, h: nat, limit: int)
    requires Inv(s, limit) && Enabled(s, CheckLimit(h))
    ensures Inv(Next(s, CheckLimit(h), limit), limit)
  {
    hide LiveCount;
    var v := Next(s, CheckLimit(h), limit).handlers[h];
    LiveAfterUpdate(s.handlers, h, v);
    UpdateKeepsBounds(s, h, v, limit);
  }

  lemma KeepsInvExit(s: State, h: nat, limit: int)
    requires Inv(s, limit) && Enabled(s, Exit(h)) && LiveCount(Next(s, Exit(h), limit).handlers) <= MAX_INT32
    ensures Inv(Next(s, Exit(h), limit), limit)
  {
    hide LiveCount, Wrap32;
    LiveAfterUpdate(s.handlers, h, Ended);
    CountFits(LiveCount(s.handlers) - 1);
    UpdateKeepsBounds(s, h, Ended, limit);
  }

  lemma KeepsInv(s: State, a: Action, limit: int)
    requires Inv(s, limit) && Enabled(s, a) && LiveCount(Next(s, a, limit).handlers) <= MAX_INT32
    ensures Inv(Next(s, a, limit), limit)
  {
    hide Inv, Next, LiveCount;
    match a
    case Accept => KeepsInvAccept(s, limit);
    case CheckLimit(h) => KeepsInvCheck(s, h, limit);
    case Exit(h) => KeepsInvExit(s, h, limit);
  }

  lemma {:induction false} RunKeepsInv(s: State, run: seq<Action>, limit: int, most: nat)
    requires most <= MAX_INT32 && Inv(s, limit) && Valid(s, run, limit, most)
    ensures Inv(End(s, run, limit, most), limit)
    decreases |run|
  {
    hide Inv, Next, LiveCount;
    if run != [] {
      KeepsInv(s, run[0], limit);
      RunKeepsInv(Next(s, run[0], limit), run[1..], limit, most);
    }
  }

  /** Among these handlers the latest admitted one bounds how many are admitted. */
  lemma {:induction false} LatestBounds(s: State, k: nat, limit: int)
    requires Inv(s, limit) && k <= |s.handlers|
    ensures AdmittedCount(s.handlers[..k]) <= LiveCount(s.handlers[..k])
    ensures AdmittedCount(s.handlers[..k]) <= if limit > 0 then limit else 0
  {
    if k > 0 {
      LatestBounds(s, k - 1, limit);
      assert s.handlers[..k][..k - 1] == s.handlers[..k - 1];
    }
  }

  /**
   In every interleaving of accepts, late limit checks and exits, the counter equals the number of live
   handlers, and those past the check never exceed the limit, as long as the counter does not wrap around.
   */
  lemma AdmissionIsBounded(s: State, limit: int, most: nat)
    requires most <= MAX_INT32 && Reachable(s, limit, most)
    ensures s.counter == LiveCount(s.handlers)
    ensures AdmittedCount(s.handlers) <= if limit > 0 then limit else 0
  {
    hide Enabled, Next, LiveCount, Inv;
    var run :| Valid(Init, run, limit, most) && End(Init, run, limit, most) == s;
    InitInv(limit);
    RunKeepsInv(Init, run, limit, most);
    LatestBounds(s, |s.handlers|, limit);
    InvCounts(s, limit);
    assert s.handlers[..|s.handlers|] == s.handlers;
  }

  lemma InitInv(limit: int)
    ensures Inv(Init, limit)
  {
  }

  lemma InvCounts(s: State, limit: int)
    requires Inv(s, limit)
    ensures s.counter == LiveCount(s.handlers)
  {
  }

  // ---------------------------------------------------------------- the exact condition

  lemma {:induction false} EndAppend(s: State, run: seq<Action>, a: Action, limit: int, most: nat)
    requires Valid(s, run, limit, most) && Enabled(End(s, run, limit, most), a)
    requires LiveCount(Next(End(s, run, limit, most), a, limit).handlers) <= most
    ensures Valid(s, run + [a], limit, most)
    ensures End(s, run + [a], limit, most) == Next(End(s, run, limit, most), a, limit)
    decreases |run|
  {
    hide Next, Enabled, LiveCount;
    if run == [] {
      assert [a][1..] == [];
      assert Valid(s, [a], limit, most) && End(s, [a], limit, most) == End(Next(s, a, limit), [], limit, most);
    } else {
      EndAppend(Next(s, run[0], limit), run[1..], a, limit, most);
      assert (run + [a])[1..] == run[1..] + [a];
    }
  }

  lemma ReachableNext(s: State, a: Action, limit: int, most: nat)
    requires Reachable(s, limit, most) && Enabled(s, a) && LiveCount(Next(s, a, limit).handlers) <= most
    ensures Reachable(Next(s, a, limit), limit, most)
  {
    hide Enabled, Next, LiveCount;
    var run :| Valid(Init, run, limit, most) && End(Init, run, limit, most) == s;
    EndAppend(Init, run, a, limit, most);
  }

  /** n handlers accepted one after the other, of which the first k are past the check. */
  function Crowd(n: nat, k: nat): (r: seq<Handler>)
    ensures |r| == n && LiveCount(r) == n && AdmittedCount(r) == if k < n then k else n
    ensures forall i :: 0 <= i < n ==> r[i] == if i < k then Admitted(i + 1) else Created(i + 1)
  {
    if n == 0 then []
    else
      var front, last := Crowd(n - 1, k), if n <= k then Admitted(n) else Created(n);
      assert (front + [last])[..n - 1] == front;
      front + [last]
  }

  lemma {:induction false} CrowdReachable(n: nat, k: nat, limit: int, most: nat)
    requires n <= MAX_INT32 && n <= most && k <= n && k <= limit
    ensures Reachable(State(n, Crowd(n, k)), limit, most)
    decreases n + k
  {
    hide Reachable, LiveCount, AdmittedCount;
    if k > 0 {
      CrowdReachable(n, k - 1, limit, most);
      var s := State(n, Crowd(n, k - 1));
      assert Next(s, CheckLimit(k - 1), limit).handlers == Crowd(n, k);
      ReachableNext(s, CheckLimit(k - 1), limit, most);
    } else if n > 0 {
      CrowdReachable(n - 1, 0, limit, most);
      var s := State(n - 1, Crowd(n - 1, 0));
      assert Next(s, Accept, limit).handlers == Crowd(n, 0);
      ReachableNext(s, Accept, limit, most);
    } else {
      InitReachable(limit, most);
    }
  }

  lemma InitReachable(limit: int, most: nat)
    ensures Reachable(State(0, []), limit, most)
  {
    assert Valid(Init, [], limit, most) && End(Init, [], limit, most) == Init;
  }

  /** One handler more than fits the counter gets a negative count and passes every check. */
  lemma WrappedAdmits(limit: nat, most: nat) returns (s: State)
    requires limit <= MAX_INT32 < most
    ensures Reachable(s, limit, most) && AdmittedCount(s.handlers) == limit + 1
  {
    hide Reachable;
    CrowdReachable(MAX_INT32, limit, limit, most);
    var crowd := Crowd(MAX_INT32, limit);
    var n := Wrap32(MAX_INT32 + 1);
    s := State(MAX_INT32, crowd);
    var late := crowd + [Created(n)];
    assert late[..MAX_INT32] == crowd;
    ReachableNext(s, Accept, limit, most);
    s := State(n, late);
    var all := late[MAX_INT32 := Admitted(n)];
    assert all[..MAX_INT32] == crowd;
    ReachableNext(s, CheckLimit(MAX_INT32), limit, most);
    s := State(n, all);
  }

  /** The limit is kept in every run if and only if the connections that exist at once fit the 32-bit counter. */
  lemma LimitHoldsIff(limit: nat, most: nat)
    requires limit <= MAX_INT32
    ensures (forall s :: Reachable(s, limit, most) ==> AdmittedCount(s.handlers) <= limit) <==> most <= MAX_INT32
  {
    if most <= MAX_INT32 {
      forall s | Reachable(s, limit, most) ensures AdmittedCount(s.handlers) <= limit {
        AdmissionIsBounded(s, limit, most);
      }
    } else {
      var s := WrappedAdmits(limit, most);
    }
  }
}

/** Concatenation of a sequence of sequences. */
module Sequences {

  function Joined<T>(parts: seq<seq<T>>): seq<T> {
    if parts == [] then [] else parts[0] + Joined(parts[1..])
  }

  lemma {:induction false} JoinedAppend<T>(parts: seq<seq<T>>, part: seq<T>)
    ensures Joined(parts + [part]) == Joined(parts) + part
  {
    if parts == [] {
      assert Joined([part]) == part + Joined([part][1..]);
    } else {
      assert (parts + [part])[1..] == parts[1..] + [part];
      JoinedAppend(parts[1..], part);
    }
  }
}

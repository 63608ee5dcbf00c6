/**
 * Delivery of one event to a multicast delegate: the registered listeners
 * are called in registration order, and the first listener that throws ends
 * the invocation, so the listeners after it are not called.
 */
module Fanout {

  /** One registered listener; `faults` means it throws when called. */
  datatype Listener = Listener(tag: nat, faults: bool)

  /** The tags of `ls`, in order. */
  function Tags(ls: seq<Listener>): (t: seq<nat>)
    ensures |t| == |ls|
    ensures forall i :: 0 <= i < |ls| ==> t[i] == ls[i].tag
  {
    seq(|ls|, i requires 0 <= i < |ls| => ls[i].tag)
  }

  /** Some listener of `ls` throws. */
  predicate Faults(ls: seq<Listener>) {
    exists i :: 0 <= i < |ls| && ls[i].faults
  }

  /** `i` is the position of the first listener of `ls` that throws. */
  predicate FirstFault(ls: seq<Listener>, i: int) {
    0 <= i < |ls| && ls[i].faults && forall j :: 0 <= j < i ==> !ls[j].faults
  }

  /** The tags of the listeners one invocation calls, in the order it calls them. */
  function Reached(ls: seq<Listener>): (t: seq<nat>)
    decreases |ls|
  {
    if ls == [] then []
    else [ls[0].tag] + (if ls[0].faults then [] else Reached(ls[1..]))
  }

  /**
   * An invocation calls every listener when none throws, and otherwise
   * exactly the listeners up to and including the first one that throws.
   */
  lemma {:induction false} ReachedIsPrefix(ls: seq<Listener>)
    ensures !Faults(ls) ==> Reached(ls) == Tags(ls)
    ensures forall i :: FirstFault(ls, i) ==> Reached(ls) == Tags(ls[..i + 1])
    decreases |ls|
  {
    if ls != [] {
      ReachedIsPrefix(ls[1..]);
      if !Faults(ls) {
        assert !Faults(ls[1..]) by {
          forall i | 0 <= i < |ls[1..]|
            ensures !ls[1..][i].faults
          {
            assert ls[1..][i] == ls[i + 1];
          }
        }
      }
      forall i | FirstFault(ls, i)
        ensures Reached(ls) == Tags(ls[..i + 1])
      {
        if i > 0 {
          assert FirstFault(ls[1..], i - 1) by {
            forall j | 0 <= j < i - 1
              ensures !ls[1..][j].faults
            {
              assert ls[1..][j] == ls[j + 1];
            }
          }
          assert ls[1..][..i] == ls[1..i + 1];
        }
      }
    }
  }
}

/** `Array.prototype.filter`, with the positions it keeps. */
module Seqs {

  /** The elements of `s` that satisfy `p`, in their original order. */
  function Filter<T>(p: T -> bool, s: seq<T>): (r: seq<T>)
    ensures |r| <= |s|
    ensures forall x :: x in r ==> x in s && p(x)
  {
    if s == [] then []
    else if p(s[0]) then [s[0]] + Filter(p, s[1..])
    else Filter(p, s[1..])
  }

  /** A filter that accepts everything changes nothing. */
  lemma {:induction false} FilterAll<T>(p: T -> bool, s: seq<T>)
    requires forall i :: 0 <= i < |s| ==> p(s[i])
    ensures Filter(p, s) == s
  {
    if s != [] {
      FilterAll(p, s[1..]);
    }
  }

  /** Positions strictly increase. */
  ghost predicate Increasing(ix: seq<nat>) {
    forall i, j :: 0 <= i < j < |ix| ==> ix[i] < ix[j]
  }

  /** The positions at or after `from` whose elements `p` accepts, in
      increasing order (see `KeptFromFacts`). */
  function KeptFrom<T>(p: T -> bool, s: seq<T>, from: nat): (ix: seq<nat>)
    requires from <= |s|
    ensures forall k :: 0 <= k < |ix| ==> from <= ix[k] < |s|
    decreases |s| - from
  {
    if from == |s| then []
    else
      var rest := KeptFrom(p, s, from + 1);
      if p(s[from]) then [from] + rest else rest
  }

  /** The positions increase, each holds an accepted element, and every
      accepted position is among them. */
  lemma KeptFromFacts<T>(p: T -> bool, s: seq<T>, from: nat)
    requires from <= |s|
    ensures Increasing(KeptFrom(p, s, from))
    ensures forall k :: 0 <= k < |KeptFrom(p, s, from)| ==> p(s[KeptFrom(p, s, from)[k]])
    ensures forall i :: from <= i < |s| ==> (p(s[i]) <==> i in KeptFrom(p, s, from))
  {
    KeptIncreasing(p, s, from);
    KeptAccepted(p, s, from);
    KeptComplete(p, s, from);
  }

  lemma {:induction false} KeptIncreasing<T>(p: T -> bool, s: seq<T>, from: nat)
    requires from <= |s|
    ensures Increasing(KeptFrom(p, s, from))
    decreases |s| - from
  {
    if from < |s| {
      KeptIncreasing(p, s, from + 1);
      KeptStep(p, s, from);
      if p(s[from]) {
        ConsIncreasing(from, KeptFrom(p, s, from + 1));
      }
    }
  }

  /** A position below every later one keeps the order increasing. */
  lemma ConsIncreasing(from: nat, rest: seq<nat>)
    requires Increasing(rest) && forall k :: 0 <= k < |rest| ==> from < rest[k]
    ensures Increasing([from] + rest)
  {
    var ix := [from] + rest;
    forall i, j | 0 <= i < j < |ix|
      ensures ix[i] < ix[j]
    {
      assert ix[j] == rest[j - 1];
      if i > 0 {
        assert ix[i] == rest[i - 1];
      }
    }
  }

  lemma {:induction false} KeptAccepted<T>(p: T -> bool, s: seq<T>, from: nat)
    requires from <= |s|
    ensures forall k :: 0 <= k < |KeptFrom(p, s, from)| ==> p(s[KeptFrom(p, s, from)[k]])
    decreases |s| - from
  {
    if from < |s| {
      KeptAccepted(p, s, from + 1);
      KeptStep(p, s, from);
      var rest := KeptFrom(p, s, from + 1);
      if p(s[from]) {
        var ix := [from] + rest;
        forall k | 0 <= k < |ix|
          ensures p(s[ix[k]])
        {
          if k > 0 {
            assert ix[k] == rest[k - 1];
          }
        }
      }
    }
  }

  lemma {:induction false} KeptComplete<T>(p: T -> bool, s: seq<T>, from: nat)
    requires from <= |s|
    ensures forall i :: from <= i < |s| ==> (p(s[i]) <==> i in KeptFrom(p, s, from))
    decreases |s| - from
  {
    if from < |s| {
      KeptComplete(p, s, from + 1);
      KeptStep(p, s, from);
      var rest := KeptFrom(p, s, from + 1);
      assert from !in rest;
      if p(s[from]) {
        var ix := [from] + rest;
        forall i | from <= i < |s|
          ensures p(s[i]) <==> i in ix
        {
          assert i in ix <==> i == from || i in rest;
        }
      }
    }
  }

  /** The positions of `s` whose elements `p` accepts. */
  function Kept<T>(p: T -> bool, s: seq<T>): seq<nat> {
    KeptFrom(p, s, 0)
  }

  /** The filter keeps exactly the accepted elements, in order: its k-th
      element is the element at the k-th accepted position. So nothing is
      dropped that `p` accepts, nothing is kept that `p` rejects, and
      relative order is unchanged. */
  lemma FilterKeepsAcceptedInOrder<T>(p: T -> bool, s: seq<T>)
    ensures |Filter(p, s)| == |Kept(p, s)|
    ensures forall k :: 0 <= k < |Kept(p, s)| ==> Filter(p, s)[k] == s[Kept(p, s)[k]]
  {
    FilterFrom(p, s, 0);
  }

  lemma {:induction false} FilterFrom<T>(p: T -> bool, s: seq<T>, from: nat)
    requires from <= |s|
    ensures |Filter(p, s[from..])| == |KeptFrom(p, s, from)|
    ensures forall k :: 0 <= k < |KeptFrom(p, s, from)| ==>
              Filter(p, s[from..])[k] == s[KeptFrom(p, s, from)[k]]
    decreases |s| - from
  {
    if from < |s| {
      FilterFrom(p, s, from + 1);
      var t := s[from..];
      assert t[0] == s[from] && t[1..] == s[from + 1..];
      FilterStep(p, t, p(s[from]));
      KeptStep(p, s, from);
      if p(s[from]) {
        ConsStep(s, from, Filter(p, t), Filter(p, s[from + 1..]), KeptFrom(p, s, from), KeptFrom(p, s, from + 1));
      }
    }
  }

  /** One step of the positions: `from` comes first exactly when `p`
      accepts its element. */
  lemma KeptStep<T>(p: T -> bool, s: seq<T>, from: nat)
    requires from < |s|
    ensures KeptFrom(p, s, from) == if p(s[from]) then [from] + KeptFrom(p, s, from + 1) else KeptFrom(p, s, from + 1)
  {
  }

  /** Putting an element and its position in front of two sequences that
      line up keeps them lined up. */
  lemma ConsStep<T>(s: seq<T>, from: nat, xs: seq<T>, tail: seq<T>, ix: seq<nat>, rest: seq<nat>)
    requires from < |s| && xs == [s[from]] + tail && ix == [from] + rest
    requires |tail| == |rest| && forall k :: 0 <= k < |rest| ==> rest[k] < |s| && tail[k] == s[rest[k]]
    ensures |xs| == |ix| && forall k :: 0 <= k < |ix| ==> ix[k] < |s| && xs[k] == s[ix[k]]
  {
    forall k | 0 <= k < |ix|
      ensures ix[k] < |s| && xs[k] == s[ix[k]]
    {
      if k > 0 {
        assert xs[k] == tail[k - 1] && ix[k] == rest[k - 1];
      }
    }
  }

  /** One step of the filter: the head is kept exactly when `p` accepts it. */
  lemma FilterStep<T>(p: T -> bool, t: seq<T>, accepted: bool)
    requires |t| > 0 && p(t[0]) == accepted
    ensures Filter(p, t) == if accepted then [t[0]] + Filter(p, t[1..]) else Filter(p, t[1..])
  {
  }
}

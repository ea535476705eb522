/** The private-conversation view: a pure projection of the global log of
    direct messages onto the records exchanged between two participants. */
module Conversation {
  import opened Records

  /** `pm` was sent from `self` to `peer` or from `peer` to `self`. */
  predicate InConversation(pm: PrivateMessage, self: string, peer: string) {
    || (pm.from == self && pm.to == peer)
    || (pm.from == peer && pm.to == self)
  }

  /** The records of `log` that belong to the conversation, in log order. */
  function PrivateView(log: seq<PrivateMessage>, self: string, peer: string): (r: seq<PrivateMessage>)
    ensures |r| <= |log|
    ensures forall k :: 0 <= k < |r| ==> InConversation(r[k], self, peer)
  {
    if log == [] then []
    else (if InConversation(log[0], self, peer) then [log[0]] else []) + PrivateView(log[1..], self, peer)
  }

  /** A record is in the view exactly when it is in the log and belongs to
      the conversation. */
  lemma {:induction false} ViewMembership(log: seq<PrivateMessage>, self: string, peer: string, m: PrivateMessage)
    ensures m in PrivateView(log, self, peer) <==> m in log && InConversation(m, self, peer)
  {
    if log != [] {
      ViewMembership(log[1..], self, peer, m);
      assert log == [log[0]] + log[1..];
    }
  }

  /** Reference definition: the positions, in increasing order, of the
      records of `log` from position `from` on that belong to the
      conversation. */
  function Positions(log: seq<PrivateMessage>, self: string, peer: string, from: nat): seq<nat>
    decreases |log| - from
  {
    if from >= |log| then []
    else (if InConversation(log[from], self, peer) then [from] else []) + Positions(log, self, peer, from + 1)
  }

  lemma {:induction false} SelectionFrom(log: seq<PrivateMessage>, self: string, peer: string, from: nat)
    requires from <= |log|
    ensures var p := Positions(log, self, peer, from);
            var r := PrivateView(log[from..], self, peer);
            && |r| == |p|
            && (forall k :: 0 <= k < |p| ==> from <= p[k] < |log| && r[k] == log[p[k]])
            && (forall k, l :: 0 <= k < l < |p| ==> p[k] < p[l])
            && (forall i :: from <= i < |log| ==> (i in p <==> InConversation(log[i], self, peer)))
    decreases |log| - from
  {
    if from < |log| {
      SelectionFrom(log, self, peer, from + 1);
      assert log[from..][1..] == log[from + 1..];
      assert log[from..][0] == log[from];
    }
  }

  /** The view is exactly the in-order selection of the matching records:
      its k-th entry is the record at the k-th matching position, the
      positions increase, and a position is selected if and only if its
      record belongs to the conversation. */
  lemma ViewIsExactSelection(log: seq<PrivateMessage>, self: string, peer: string)
    ensures var p := Positions(log, self, peer, 0);
            var r := PrivateView(log, self, peer);
            && |r| == |p|
            && (forall k :: 0 <= k < |p| ==> p[k] < |log| && r[k] == log[p[k]])
            && (forall k, l :: 0 <= k < l < |p| ==> p[k] < p[l])
            && (forall i :: 0 <= i < |log| ==> (i in p <==> InConversation(log[i], self, peer)))
  {
    SelectionFrom(log, self, peer, 0);
    assert log[0..] == log;
  }

  /** Who is "self" and who is "peer" does not matter. */
  lemma {:induction false} ViewSymmetric(log: seq<PrivateMessage>, a: string, b: string)
    ensures PrivateView(log, a, b) == PrivateView(log, b, a)
  {
    if log != [] {
      ViewSymmetric(log[1..], a, b);
    }
  }

  /** Appending a record to the log extends the view by that record when
      it belongs to the conversation and leaves the view as it was
      otherwise. */
  lemma {:induction false} ViewOfAppend(log: seq<PrivateMessage>, pm: PrivateMessage, self: string, peer: string)
    ensures PrivateView(log + [pm], self, peer)
         == PrivateView(log, self, peer) + (if InConversation(pm, self, peer) then [pm] else [])
  {
    if log == [] {
      assert [] + [pm] == [pm];
    } else {
      assert (log + [pm])[1..] == log[1..] + [pm];
      ViewOfAppend(log[1..], pm, self, peer);
    }
  }
}

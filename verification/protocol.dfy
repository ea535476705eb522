/** The order in which the client is allowed to use its socket: one handle
    at a time, each new handle announced with `joinRoom` then `register`
    for the signed-in name, sends only on a live handle, and a disconnect
    only of a live handle. */
module Protocol {
  import opened Records

  datatype Phase =
    | Closed     // no handle
    | Opening    // handle created, nothing announced yet
    | Announced  // joinRoom sent, register not yet
    | Live       // joinRoom and register sent
    | Broken     // the trace left the protocol

  /** One protocol step for the participant `user`. */
  function Next(p: Phase, user: string, e: Transport): Phase {
    match e
    case Open => if p == Closed then Opening else Broken
    case JoinRoom(n) => if p == Opening && n == user then Announced else Broken
    case Register(n) => if p == Announced && n == user then Live else Broken
    case ChatOut(m) => if p == Live && m.username == user then Live else Broken
    case PrivateOut(_, _) => if p == Live then Live else Broken
    case Close => if p == Live then Closed else Broken
  }

  /** The phase a whole trace leaves the socket in. */
  function PhaseOf(t: seq<Transport>, user: string): Phase {
    if t == [] then Closed else Next(PhaseOf(t[..|t| - 1], user), user, t[|t| - 1])
  }

  lemma PhaseOfAppend(t: seq<Transport>, user: string, e: Transport)
    ensures PhaseOf(t + [e], user) == Next(PhaseOf(t, user), user, e)
  {
    assert (t + [e])[..|t|] == t;
  }

  /** Phase after a trace extended by several calls. */
  lemma PhaseOfAppend3(t: seq<Transport>, user: string, a: Transport, b: Transport, c: Transport)
    ensures PhaseOf(t + [a, b, c], user)
         == Next(Next(Next(PhaseOf(t, user), user, a), user, b), user, c)
  {
    var t1 := t + [a];
    var t2 := t1 + [b];
    assert t2 + [c] == t + [a, b, c];
    PhaseOfAppend(t, user, a);
    PhaseOfAppend(t1, user, b);
    PhaseOfAppend(t2, user, c);
  }

  /** Number of handles created and closed. */
  function Opens(t: seq<Transport>): nat {
    if t == [] then 0 else Opens(t[..|t| - 1]) + (if t[|t| - 1] == Open then 1 else 0)
  }

  function Closes(t: seq<Transport>): nat {
    if t == [] then 0 else Closes(t[..|t| - 1]) + (if t[|t| - 1] == Close then 1 else 0)
  }

  /** A trace that keeps the protocol never has more than one handle open:
      every handle but the current one has been disconnected. */
  lemma {:induction false} AtMostOneHandle(t: seq<Transport>, user: string)
    requires PhaseOf(t, user) != Broken
    ensures Opens(t) == Closes(t) + (if PhaseOf(t, user) == Closed then 0 else 1)
  {
    if t != [] {
      var init := t[..|t| - 1];
      assert PhaseOf(init, user) != Broken;
      AtMostOneHandle(init, user);
    }
  }

  /** A trace that keeps the protocol announces every handle exactly once,
      in order: each `Open` is followed by `JoinRoom(user)` and then by
      `Register(user)`, and each announcement sits right behind its `Open`. */
  lemma {:induction false} EveryHandleAnnounced(t: seq<Transport>, user: string)
    requires PhaseOf(t, user) != Broken
    ensures forall i :: 0 <= i < |t| && t[i] == Open ==>
              (i + 1 < |t| ==> t[i + 1] == JoinRoom(user)) && (i + 2 < |t| ==> t[i + 2] == Register(user))
    ensures forall i :: 0 <= i < |t| && t[i].JoinRoom? ==> 1 <= i && t[i - 1] == Open
    ensures forall i :: 0 <= i < |t| && t[i].Register? ==> 2 <= i && t[i - 2] == Open
    ensures |t| >= 1 && t[|t| - 1] == Open ==> PhaseOf(t, user) == Opening
    ensures |t| >= 2 && t[|t| - 2] == Open ==> PhaseOf(t, user) == Announced
  {
    if t != [] {
      var init := t[..|t| - 1];
      var e := t[|t| - 1];
      var p := PhaseOf(init, user);
      assert p != Broken;
      EveryHandleAnnounced(init, user);
      assert forall i :: 0 <= i < |init| ==> t[i] == init[i];
      if |t| >= 2 && t[|t| - 2] == Open {
        assert init[|init| - 1] == Open;
      }
      if |t| >= 3 && t[|t| - 3] == Open {
        assert init[|init| - 2] == Open;
      }
    }
  }
}

/** What holds in every state the client can reach from mount, and what
    follows from it about the socket protocol, the roster and the views. */
module Invariants {
  import opened Records
  import opened Text
  import opened Session
  import Protocol
  import Conversation

  /** Reachable-state invariant. */
  ghost predicate Inv(s: State) {
    && (s.connected ==> s.joined)
    && (s.joined ==> !IsBlank(s.username))
    && (!s.joined ==> s.mode == Unset && s.allUsers == [] && s.trace == [])
    && (s.privateRecipientConfirmed ==> s.mode == Private && s.privateRecipient != [])
    && (s.trace == [] ==> s.messages == [] && s.notifications == [] && s.privateMessages == [])
    && (s.allUsers == [] || s.allUsers == [s.username])
    && Protocol.PhaseOf(s.trace, s.username) == (if s.connected then Protocol.Live else Protocol.Closed)
  }

  lemma InitInv()
    ensures Inv(Init())
  {
  }

  lemma StepPreservesInv(s: State, e: Event)
    requires Inv(s)
    ensures Inv(Step(s, e))
  {
    match e
    case TypeName(v) => TypeNameInv(s, v);
    case SubmitName => SubmitNameInv(s);
    case ChoosePrivate => ChooseInv(s, ChoosePrivate);
    case ChooseBroadcast => ChooseInv(s, ChooseBroadcast);
    case TypeRecipient(v) => DraftInv(s, e);
    case SubmitRecipient => SubmitRecipientInv(s);
    case TypePrivate(v) => DraftInv(s, e);
    case SubmitPrivate => SubmitPrivateInv(s);
    case TypeMessage(v) => DraftInv(s, e);
    case SubmitMessage => SubmitMessageInv(s);
    case ConnectEffect => ConnectInv(s);
    case RosterEffect => RosterInv(s);
    case Cleanup => TeardownInv(s);
    case Deliver(ev) => DeliverInv(s, ev);
  }

  // One lemma per kind of event keeps each proof obligation small.

  lemma TypeNameInv(s: State, v: string)
    requires Inv(s)
    ensures Inv(Step(s, TypeName(v)))
  {
  }

  lemma SubmitNameInv(s: State)
    requires Inv(s)
    ensures Inv(Step(s, SubmitName))
  {
  }

  lemma ChooseInv(s: State, e: Event)
    requires Inv(s) && (e == ChoosePrivate || e == ChooseBroadcast)
    ensures Inv(Step(s, e))
  {
  }

  lemma DraftInv(s: State, e: Event)
    requires Inv(s) && (e.TypeRecipient? || e.TypePrivate? || e.TypeMessage?)
    ensures Inv(Step(s, e))
  {
  }

  lemma SubmitRecipientInv(s: State)
    requires Inv(s)
    ensures Inv(Step(s, SubmitRecipient))
  {
  }

  lemma SubmitPrivateInv(s: State)
    requires Inv(s)
    ensures Inv(Step(s, SubmitPrivate))
  {
  }

  lemma SubmitMessageInv(s: State)
    requires Inv(s)
    ensures Inv(Step(s, SubmitMessage))
  {
  }

  lemma RosterInv(s: State)
    requires Inv(s)
    ensures Inv(Step(s, RosterEffect))
  {
  }

  lemma DeliverInv(s: State, ev: Inbound)
    requires Inv(s)
    ensures Inv(Step(s, Deliver(ev)))
  {
  }

  lemma ConnectInv(s: State)
    requires Inv(s)
    ensures Inv(Step(s, ConnectEffect))
  {
    if s.joined && !s.connected {
      Protocol.PhaseOfAppend3(s.trace, s.username, Open, JoinRoom(s.username), Register(s.username));
    }
  }

  lemma TeardownInv(s: State)
    requires Inv(s)
    ensures Inv(Step(s, Cleanup))
  {
  }

  lemma {:induction false} RunPreservesInv(s: State, evs: seq<Event>)
    requires Inv(s)
    ensures Inv(Run(s, evs))
    decreases |evs|
  {
    if evs != [] {
      StepPreservesInv(s, evs[0]);
      RunPreservesInv(Step(s, evs[0]), evs[1..]);
    }
  }

  /** Every state reached from mount keeps the socket protocol: at most one
      handle is open, it is the one the socket ref holds, and every handle
      was announced with joinRoom then register for the signed-in name. */
  lemma ReachableKeepsProtocol(evs: seq<Event>)
    ensures var s := Run(Init(), evs);
            && Protocol.Opens(s.trace) == Protocol.Closes(s.trace) + (if s.connected then 1 else 0)
            && (forall i :: 0 <= i < |s.trace| && s.trace[i] == Open ==>
                  i + 2 < |s.trace| && s.trace[i + 1] == JoinRoom(s.username) && s.trace[i + 2] == Register(s.username))
  {
    InitInv();
    RunPreservesInv(Init(), evs);
    var s := Run(Init(), evs);
    Protocol.AtMostOneHandle(s.trace, s.username);
    Protocol.EveryHandleAnnounced(s.trace, s.username);
  }

  /** The roster never holds anyone but the signed-in user, and never twice:
      it is either empty or exactly that one name, and it is free of
      duplicates. */
  lemma ReachableRoster(evs: seq<Event>)
    ensures var s := Run(Init(), evs);
            && (s.allUsers == [] || s.allUsers == [s.username])
            && NoDuplicates(s.allUsers)
  {
    InitInv();
    RunPreservesInv(Init(), evs);
  }

  /** Running the connection effect twice opens one handle and announces
      the user once. */
  lemma ConnectTwice(s: State)
    requires Inv(s) && s.joined && !s.connected
    ensures var r := Run(s, [ConnectEffect, ConnectEffect]);
            r.connected && r.trace == s.trace + [Open, JoinRoom(s.username), Register(s.username)]
  {
    var r1 := Step(s, ConnectEffect);
    assert Run(s, [ConnectEffect, ConnectEffect]) == Run(r1, [ConnectEffect]);
    assert Run(r1, [ConnectEffect]) == Run(Step(r1, ConnectEffect), []);
  }

  /** The cleanup closes the session's handle on every path: after it the
      client holds no handle and the trace keeps the protocol with nothing
      left open. */
  lemma TeardownReleases(s: State)
    requires Inv(s)
    ensures var r := Step(s, Cleanup);
            && !r.connected
            && Protocol.PhaseOf(r.trace, r.username) == Protocol.Closed
            && Protocol.Opens(r.trace) == Protocol.Closes(r.trace)
  {
    StepPreservesInv(s, Cleanup);
    var r := Step(s, Cleanup);
    Protocol.AtMostOneHandle(r.trace, r.username);
  }

  /** A direct message the user sends shows up at the end of the view of the
      conversation with its recipient, whichever side the view is taken from. */
  lemma SentPrivateAppearsInView(s: State)
    requires Inv(s) && ScreenOf(s) == PrivateChat && s.connected && s.privateMsg != []
    ensures var r := Step(s, SubmitPrivate);
            var pm := PrivateMessage(s.username, s.privateRecipient, s.privateMsg);
            && Conversation.PrivateView(r.privateMessages, s.username, s.privateRecipient)
               == Conversation.PrivateView(s.privateMessages, s.username, s.privateRecipient) + [pm]
            && Conversation.PrivateView(r.privateMessages, s.privateRecipient, s.username)
               == Conversation.PrivateView(s.privateMessages, s.privateRecipient, s.username) + [pm]
  {
    var pm := PrivateMessage(s.username, s.privateRecipient, s.privateMsg);
    var r := Step(s, SubmitPrivate);
    assert r == SendPrivate(s);
    assert r.privateMessages == s.privateMessages + [pm];
    Conversation.ViewOfAppend(s.privateMessages, pm, s.username, s.privateRecipient);
    Conversation.ViewOfAppend(s.privateMessages, pm, s.privateRecipient, s.username);
  }

  /** An inbound direct message between other participants is stored but
      leaves the open conversation's view unchanged. */
  lemma UnrelatedPrivateHidden(s: State, pm: PrivateMessage, peer: string)
    requires s.connected && !Conversation.InConversation(pm, s.username, peer)
    ensures var r := Step(s, Deliver(PrivateIn(pm)));
            && r.privateMessages == s.privateMessages + [pm]
            && Conversation.PrivateView(r.privateMessages, s.username, peer)
               == Conversation.PrivateView(s.privateMessages, s.username, peer)
  {
    Conversation.ViewOfAppend(s.privateMessages, pm, s.username, peer);
  }

  /** Messages are not de-duplicated: the local echo of a group message and
      the same record relayed back by the server are both kept. */
  lemma LocalEchoKeptTwice(s: State)
    requires ScreenOf(s) == GroupChat && s.connected && !IsBlank(s.message)
    ensures var m := ChatMessage(s.username, s.message, None);
            Run(s, [SubmitMessage, Deliver(ChatIn(m))]).messages == s.messages + [m, m]
  {
    var m := ChatMessage(s.username, s.message, None);
    assert s.joined && s.mode == Broadcast;
    var r1 := Step(s, SubmitMessage);
    assert r1 == SendBroadcast(s);
    assert r1.messages == s.messages + [m] && r1.connected;
    var r2 := Step(r1, Deliver(ChatIn(m)));
    assert r2 == Receive(r1, ChatIn(m));
    assert r2.messages == s.messages + [m, m];
    assert [SubmitMessage, Deliver(ChatIn(m))][1..] == [Deliver(ChatIn(m))];
    assert Run(r1, [Deliver(ChatIn(m))]) == r2;
  }
}

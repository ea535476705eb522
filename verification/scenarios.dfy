/** Concrete sessions: a name is chosen, a mode is picked, messages are
    sent and received, and each lemma states the exact logs, trace, roster
    and conversation views that result, including the inputs the handlers
    refuse and the blank recipient they accept. */
module Scenarios {
  import opened Records
  import opened Text
  import opened Session
  import Conversation

  /** Typing a name, submitting it, and the two effects React then runs. */
  function SignIn(name: string): seq<Event> {
    [TypeName(name), SubmitName, ConnectEffect, RosterEffect]
  }

  lemma Run3(s: State, e1: Event, e2: Event, e3: Event)
    ensures Run(s, [e1, e2, e3]) == Step(Step(Step(s, e1), e2), e3)
  {
    RunSnoc(s, [], e1);
    RunSnoc(s, [e1], e2);
    RunSnoc(s, [e1, e2], e3);
    assert [e1] + [e2] == [e1, e2];
    assert [e1, e2] + [e3] == [e1, e2, e3];
  }

  /** The state right after alice has signed in. */
  function AliceIn(): State {
    Init().(username := "alice", joined := true, connected := true, allUsers := ["alice"],
            trace := [Open, JoinRoom("alice"), Register("alice")])
  }

  lemma SignInAlice()
    ensures Run(Init(), SignIn("alice")) == AliceIn()
    ensures var s := AliceIn();
            && s.joined && s.connected && ScreenOf(s) == ModeChooser
            && s.messages == [] && s.notifications == [] && s.privateMessages == []
  {
    var s0 := Init();
    var s1 := s0.(username := "alice");
    StepRunsHandler(s0, TypeName("alice"));
    assert !IsWhitespace("alice"[0]);
    var s2 := s1.(joined := true);
    StepRunsHandler(s1, SubmitName);
    assert Join(s1) == s2;
    var s3 := s2.(connected := true, trace := [Open, JoinRoom("alice"), Register("alice")]);
    StepRunsHandler(s2, ConnectEffect);
    assert Connect(s2) == s3;
    StepRunsHandler(s3, RosterEffect);
    assert AddToRoster(s3) == AliceIn();
    RunSnoc(s0, [], TypeName("alice"));
    RunSnoc(s0, [TypeName("alice")], SubmitName);
    RunSnoc(s0, [TypeName("alice"), SubmitName], ConnectEffect);
    RunSnoc(s0, [TypeName("alice"), SubmitName, ConnectEffect], RosterEffect);
  }

  /** A blank name is refused: the name prompt stays and nothing is sent. */
  lemma BlankNameRefused()
    ensures var s := Run(Init(), SignIn("  "));
            && !s.joined && ScreenOf(s) == NamePrompt && s.trace == [] && s.allUsers == []
  {
    var s0 := Init();
    var s1 := s0.(username := "  ");
    assert Step(s0, TypeName("  ")) == s1;
    assert IsBlank(s1.username);
    assert Step(s1, SubmitName) == s1;
    assert Step(s1, ConnectEffect) == s1;
    assert Step(s1, RosterEffect) == s1;
    RunSnoc(s0, [], TypeName("  "));
    RunSnoc(s0, [TypeName("  ")], SubmitName);
    RunSnoc(s0, [TypeName("  "), SubmitName], ConnectEffect);
    RunSnoc(s0, [TypeName("  "), SubmitName, ConnectEffect], RosterEffect);
  }

  /** Alice picks broadcast and sends "hi": the local echo is the only
      entry of the group log, before the server relays anything. */
  lemma BroadcastHi()
    ensures var s := Run(Init(), SignIn("alice") + [ChooseBroadcast, TypeMessage("hi"), SubmitMessage]);
            var m := ChatMessage("alice", "hi", None);
            && ScreenOf(s) == GroupChat
            && s.messages == [m] && s.message == []
            && s.trace == [Open, JoinRoom("alice"), Register("alice"), ChatOut(m)]
  {
    var m := ChatMessage("alice", "hi", None);
    var s0 := AliceIn();
    var s1 := s0.(mode := Broadcast);
    var s2 := s1.(message := "hi");
    var s3 := s2.(message := [], messages := [m], trace := s0.trace + [ChatOut(m)]);
    assert Step(s0, ChooseBroadcast) == s1;
    assert Step(s1, TypeMessage("hi")) == s2;
    assert Step(s2, SubmitMessage) == s3 by {
      assert !IsWhitespace("hi"[0]);
    }
    Run3(s0, ChooseBroadcast, TypeMessage("hi"), SubmitMessage);
    SignInAlice();
    RunConcat(Init(), SignIn("alice"), [ChooseBroadcast, TypeMessage("hi"), SubmitMessage]);
  }

  /** Empty and whitespace-only drafts are refused: no entry, no emit. */
  lemma BlankDraftsRefused(s: State, draft: string)
    requires ScreenOf(s) == GroupChat && draft in {"", "   "}
    ensures var r := Step(Step(s, TypeMessage(draft)), SubmitMessage);
            r.messages == s.messages && r.trace == s.trace
  {
    var s1 := Step(s, TypeMessage(draft));
    assert s1.message == draft;
    assert IsBlank(s1.message);
  }

  /** Alice's private conversation with `peer`, confirmed. */
  function AliceWith(peer: string): State {
    AliceIn().(mode := Private, privateRecipient := peer, privateRecipientConfirmed := true)
  }

  lemma PrivateHeyRun()
    ensures Run(Init(), SignIn("alice") + [ChoosePrivate, TypeRecipient("bob"), SubmitRecipient,
                                           TypePrivate("hey"), SubmitPrivate])
         == AliceWith("bob").(privateMessages := [PrivateMessage("alice", "bob", "hey")],
                              trace := AliceIn().trace + [PrivateOut("bob", "hey")])
  {
    var s3 := AliceWith("bob");
    var q1 := [ChoosePrivate, TypeRecipient("bob"), SubmitRecipient];
    var q2 := [TypePrivate("hey"), SubmitPrivate];
    AliceChoosesPeer("bob");
    var s4 := s3.(privateMsg := "hey");
    StepRunsHandler(s3, TypePrivate("hey"));
    StepRunsHandler(s4, SubmitPrivate);
    assert SendPrivate(s4) == s3.(privateMessages := [PrivateMessage("alice", "bob", "hey")],
                                          trace := AliceIn().trace + [PrivateOut("bob", "hey")]);
    RunSnoc(s3, [], TypePrivate("hey"));
    RunSnoc(s3, [TypePrivate("hey")], SubmitPrivate);
    assert [] + [TypePrivate("hey")] + [SubmitPrivate] == q2;
    assert q1 + q2 == [ChoosePrivate, TypeRecipient("bob"), SubmitRecipient, TypePrivate("hey"), SubmitPrivate];
    SignInAlice();
    RunConcat(Init(), SignIn("alice"), q1 + q2);
    RunConcat(AliceIn(), q1, q2);
  }

  /** Alice picks private, names bob, confirms, and sends "hey". */
  lemma PrivateHey()
    ensures var s := Run(Init(), SignIn("alice") + [ChoosePrivate, TypeRecipient("bob"), SubmitRecipient,
                                                    TypePrivate("hey"), SubmitPrivate]);
            var pm := PrivateMessage("alice", "bob", "hey");
            && ScreenOf(s) == PrivateChat && s.privateRecipient == "bob"
            && s.privateMessages == [pm]
            && s.trace == [Open, JoinRoom("alice"), Register("alice"), PrivateOut("bob", "hey")]
            && Conversation.PrivateView(s.privateMessages, "alice", "bob") == [pm]
            && Conversation.PrivateView(s.privateMessages, "alice", "carol") == []
  {
    var pm := PrivateMessage("alice", "bob", "hey");
    PrivateHeyRun();
    assert Conversation.PrivateView([pm], "alice", "bob") == [pm];
    assert Conversation.PrivateView([pm], "alice", "carol") == [];
  }

  /** From alice's mode chooser to a confirmed private conversation. */
  lemma AliceChoosesPeer(peer: string)
    requires peer != []
    ensures Run(AliceIn(), [ChoosePrivate, TypeRecipient(peer), SubmitRecipient]) == AliceWith(peer)
  {
    var s0 := AliceIn();
    var s1 := s0.(mode := Private);
    var s2 := s1.(privateRecipient := peer);
    assert Step(s0, ChoosePrivate) == s1;
    assert Step(s1, TypeRecipient(peer)) == s2;
    assert Step(s2, SubmitRecipient) == s2.(privateRecipientConfirmed := true);
    Run3(s0, ChoosePrivate, TypeRecipient(peer), SubmitRecipient);
  }

  lemma CarolJoinsRun()
    ensures Run(Init(), SignIn("alice") + [Deliver(UserJoined("carol joined"))])
         == AliceIn().(notifications := ["carol joined"])
  {
    var note := UserJoined("carol joined");
    var ev := Deliver(note);
    SignInAlice();
    RunSnoc(Init(), SignIn("alice"), ev);
    var s := AliceIn();
    StepRunsHandler(s, ev);
    assert Receive(s, note) == s.(notifications := ["carol joined"]);
  }

  /** A join notification lands in the notification log only; the roster
      does not learn the newcomer's name. */
  lemma CarolJoins()
    ensures var s := Run(Init(), SignIn("alice") + [Deliver(UserJoined("carol joined"))]);
            && s.notifications == ["carol joined"]
            && s.allUsers == ["alice"]
            && s.messages == [] && s.privateMessages == []
  {
    CarolJoinsRun();
  }

  lemma BobWhileTalkingToDaveRun()
    ensures Run(Init(), SignIn("alice") + [ChoosePrivate, TypeRecipient("dave"), SubmitRecipient,
                                           Deliver(PrivateIn(PrivateMessage("bob", "alice", "yo")))])
         == AliceWith("dave").(privateMessages := [PrivateMessage("bob", "alice", "yo")])
  {
    var pm := PrivateMessage("bob", "alice", "yo");
    var q1 := [ChoosePrivate, TypeRecipient("dave"), SubmitRecipient];
    var s3 := AliceWith("dave");
    AliceChoosesPeer("dave");
    StepRunsHandler(s3, Deliver(PrivateIn(pm)));
    assert Receive(s3, PrivateIn(pm)) == s3.(privateMessages := [pm]);
    RunSnoc(AliceIn(), q1, Deliver(PrivateIn(pm)));
    assert q1 + [Deliver(PrivateIn(pm))]
        == [ChoosePrivate, TypeRecipient("dave"), SubmitRecipient, Deliver(PrivateIn(pm))];
    SignInAlice();
    RunConcat(Init(), SignIn("alice"), q1 + [Deliver(PrivateIn(pm))]);
  }

  /** A message from bob to alice arriving while alice talks with dave is
      stored but not shown. */
  lemma BobWhileTalkingToDave()
    ensures var s := Run(Init(), SignIn("alice") + [ChoosePrivate, TypeRecipient("dave"), SubmitRecipient,
                                                    Deliver(PrivateIn(PrivateMessage("bob", "alice", "yo")))]);
            && ScreenOf(s) == PrivateChat && s.privateRecipient == "dave"
            && s.privateMessages == [PrivateMessage("bob", "alice", "yo")]
            && Conversation.PrivateView(s.privateMessages, s.username, s.privateRecipient) == []
            && Conversation.PrivateView(s.privateMessages, "alice", "bob") == s.privateMessages
  {
    var pm := PrivateMessage("bob", "alice", "yo");
    BobWhileTalkingToDaveRun();
    assert Conversation.PrivateView([pm], "alice", "dave") == [];
    assert Conversation.PrivateView([pm], "alice", "bob") == [pm];
  }

  /** The recipient is confirmed without trimming: a recipient of spaces
      opens a private conversation. */
  lemma BlankRecipientAccepted(s: State)
    requires ScreenOf(s) == RecipientPrompt
    ensures var r := Step(Step(s, TypeRecipient("  ")), SubmitRecipient);
            ScreenOf(r) == PrivateChat && r.privateRecipient == "  "
  {
  }
}

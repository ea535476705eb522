/** The client's session state machine: one immutable record of everything
    the `App` component keeps in React state, and one pure function per
    handler, effect and socket listener. React runs each of them to
    completion before the next, so each is one atomic transition here. */
module Session {
  import opened Records
  import opened Text

  datatype State = State(
    username: string,                 // the name field; frozen once joined
    joined: bool,
    mode: Mode,
    message: string,                  // group-chat draft
    messages: seq<ChatMessage>,
    notifications: seq<string>,
    privateRecipient: string,
    privateRecipientConfirmed: bool,
    privateMsg: string,               // direct-message draft
    privateMessages: seq<PrivateMessage>,
    allUsers: seq<string>,
    connected: bool,                  // the socket ref holds a handle
    trace: seq<Transport>)            // every call made on a socket so far

  /** The state at mount: every field at its initial value. */
  function Init(): (s: State)
    ensures !s.joined && !s.connected && s.mode == Unset && !s.privateRecipientConfirmed
    ensures s.messages == [] && s.notifications == [] && s.privateMessages == []
    ensures s.allUsers == [] && s.trace == []
    ensures s.username == [] && s.message == [] && s.privateRecipient == [] && s.privateMsg == []
  {
    State([], false, Unset, [], [], [], [], false, [], [], [], false, [])
  }

  /** The screen the component renders: the cascade of early returns. */
  datatype Screen = NamePrompt | ModeChooser | RecipientPrompt | PrivateChat | GroupChat

  function ScreenOf(s: State): Screen {
    if !s.joined then NamePrompt
    else if s.mode == Unset then ModeChooser
    else if s.mode == Private && !s.privateRecipientConfirmed then RecipientPrompt
    else if s.mode == Private then PrivateChat
    else GroupChat
  }

  /** How far along the screens a state is; both chat screens are final. */
  function Rank(sc: Screen): nat {
    match sc
    case NamePrompt => 0
    case ModeChooser => 1
    case RecipientPrompt => 2
    case PrivateChat => 3
    case GroupChat => 3
  }

  predicate NoDuplicates<T(==)>(xs: seq<T>) {
    forall i, j :: 0 <= i < j < |xs| ==> xs[i] != xs[j]
  }

  // ---------------------------------------------------------------- handlers

  /** Submitting the name form: joins when the name has a visible character. */
  function Join(s: State): (r: State)
    ensures Extends(s, r)
    ensures r.joined <==> s.joined || !IsBlank(s.username)
    ensures r == s.(joined := r.joined)
  {
    if Trim(s.username) != [] then s.(joined := true) else s
  }

  /** The connection effect: with a joined user and no handle, opens one and
      announces the user to the room and to the directory, in that order. */
  function Connect(s: State): (r: State)
    ensures Extends(s, r)
    ensures s.joined ==> r.connected
    ensures !s.joined || s.connected ==> r == s
    ensures s.joined && !s.connected ==>
              r.trace == s.trace + [Open, JoinRoom(s.username), Register(s.username)]
    ensures r == s.(connected := r.connected, trace := r.trace)
  {
    if s.joined && !s.connected then
      s.(connected := true, trace := s.trace + [Open, JoinRoom(s.username), Register(s.username)])
    else s
  }

  /** The connection effect's cleanup: disconnects a handle if there is one
      and always leaves none. */
  function Teardown(s: State): (r: State)
    ensures Extends(s, r)
    ensures !r.connected
    ensures r.trace == s.trace + (if s.connected then [Close] else [])
    ensures r == s.(connected := false, trace := r.trace)
  {
    if s.connected then s.(connected := false, trace := s.trace + [Close]) else s
  }

  /** The roster effect: records the joined name unless already recorded. */
  function AddToRoster(s: State): (r: State)
    ensures Extends(s, r)
    ensures forall x :: x in r.allUsers <==> x in s.allUsers || (x == s.username && s.joined && s.username != [])
    ensures NoDuplicates(s.allUsers) ==> NoDuplicates(r.allUsers)
    ensures r == s.(allUsers := r.allUsers)
  {
    if s.joined && s.username != [] && s.username !in s.allUsers then
      s.(allUsers := s.allUsers + [s.username])
    else s
  }

  /** Submitting the group-chat form. Blank drafts are refused, but an
      accepted draft is sent and echoed locally exactly as typed. */
  function SendBroadcast(s: State): (r: State)
    ensures Extends(s, r)
    ensures IsBlank(s.message) || !s.connected ==> r == s
    ensures !IsBlank(s.message) && s.connected ==>
              var m := ChatMessage(s.username, s.message, None);
              r == s.(message := [], messages := s.messages + [m], trace := s.trace + [ChatOut(m)])
  {
    if Trim(s.message) != [] && s.connected then
      var m := ChatMessage(s.username, s.message, None);
      s.(message := [], messages := s.messages + [m], trace := s.trace + [ChatOut(m)])
    else s
  }

  /** Submitting the direct-message form. Only emptiness is tested: a
      whitespace-only draft or recipient is accepted. */
  function SendPrivate(s: State): (r: State)
    ensures Extends(s, r)
    ensures s.privateRecipient == [] || s.privateMsg == [] || !s.connected ==> r == s
    ensures s.privateRecipient != [] && s.privateMsg != [] && s.connected ==>
              && r.privateMessages == s.privateMessages + [PrivateMessage(s.username, s.privateRecipient, s.privateMsg)]
              && r.trace == s.trace + [PrivateOut(s.privateRecipient, s.privateMsg)]
              && r == s.(privateMsg := [], privateMessages := r.privateMessages, trace := r.trace)
  {
    if s.privateRecipient != [] && s.privateMsg != [] && s.connected then
      s.(privateMsg := [],
         privateMessages := s.privateMessages + [PrivateMessage(s.username, s.privateRecipient, s.privateMsg)],
         trace := s.trace + [PrivateOut(s.privateRecipient, s.privateMsg)])
    else s
  }

  /** Submitting the recipient form: confirms any non-empty recipient. */
  function ConfirmRecipient(s: State): (r: State)
    ensures Extends(s, r)
    ensures r.privateRecipientConfirmed <==> s.privateRecipientConfirmed || s.privateRecipient != []
    ensures r == s.(privateRecipientConfirmed := r.privateRecipientConfirmed)
  {
    if s.privateRecipient != [] then s.(privateRecipientConfirmed := true) else s
  }

  /** The socket listeners: each event is appended verbatim to its own log.
      Listeners live on the handle, so nothing arrives without one. */
  function Receive(s: State, ev: Inbound): (r: State)
    ensures r.notifications == s.notifications + (if s.connected && ev.UserJoined? then [ev.note] else [])
    ensures r.messages == s.messages + (if s.connected && ev.ChatIn? then [ev.msg] else [])
    ensures r.privateMessages == s.privateMessages + (if s.connected && ev.PrivateIn? then [ev.pm] else [])
    ensures r == s.(notifications := r.notifications, messages := r.messages, privateMessages := r.privateMessages)
  {
    if !s.connected then s
    else match ev
      case UserJoined(n) => s.(notifications := s.notifications + [n])
      case ChatIn(m) => s.(messages := s.messages + [m])
      case PrivateIn(pm) => s.(privateMessages := s.privateMessages + [pm])
  }

  // ---------------------------------------------------------------- dispatch

  /** Everything that can happen to the component. User events carry the
      control they come from; a control exists only on its own screen. */
  datatype Event =
    | TypeName(name: string)            // name field, NamePrompt
    | SubmitName                        // name form, NamePrompt
    | ChoosePrivate                     // ModeChooser
    | ChooseBroadcast                   // ModeChooser
    | TypeRecipient(recipient: string)  // recipient field, RecipientPrompt
    | SubmitRecipient                   // recipient form, RecipientPrompt
    | TypePrivate(draft: string)        // message field, PrivateChat
    | SubmitPrivate                     // message form, PrivateChat
    | TypeMessage(draft: string)        // message field, GroupChat
    | SubmitMessage                     // message form, GroupChat
    | ConnectEffect
    | RosterEffect
    | Cleanup
    | Deliver(ev: Inbound)

  /** The screen on which a user event's control is rendered. */
  function ScreenFor(e: Event): Option<Screen> {
    match e
    case TypeName(_) => Some(NamePrompt)
    case SubmitName => Some(NamePrompt)
    case ChoosePrivate => Some(ModeChooser)
    case ChooseBroadcast => Some(ModeChooser)
    case TypeRecipient(_) => Some(RecipientPrompt)
    case SubmitRecipient => Some(RecipientPrompt)
    case TypePrivate(_) => Some(PrivateChat)
    case SubmitPrivate => Some(PrivateChat)
    case TypeMessage(_) => Some(GroupChat)
    case SubmitMessage => Some(GroupChat)
    case _ => None
  }

  /** Every log and the roster only grow, at their ends; the trace too. */
  predicate Extends(s: State, r: State) {
    && s.messages <= r.messages
    && s.notifications <= r.notifications
    && s.privateMessages <= r.privateMessages
    && s.allUsers <= r.allUsers
    && s.trace <= r.trace
    && (s.joined ==> r.joined)
  }

  /** The screens only move forward; once a chat screen is shown it stays,
      with the same recipient; the mode is chosen at most once; and the
      name is frozen once joined. */
  predicate ScreensForward(s: State, r: State) {
    && Rank(ScreenOf(s)) <= Rank(ScreenOf(r))
    && (ScreenOf(s) == GroupChat ==> ScreenOf(r) == GroupChat)
    && (ScreenOf(s) == PrivateChat ==> ScreenOf(r) == PrivateChat && r.privateRecipient == s.privateRecipient)
    && (s.mode != Unset ==> r.mode == s.mode)
    && (s.joined ==> r.username == s.username)
  }

  /** One event. A user event whose control is not on the current screen is
      ignored; everything else runs its handler, effect or listener. */
  function Step(s: State, e: Event): (r: State)
    ensures ScreenFor(e).Some? && ScreenFor(e).value != ScreenOf(s) ==> r == s
    ensures Extends(s, r)
  {
    var sc := ScreenOf(s);
    match e
    case TypeName(v) => if sc == NamePrompt then s.(username := v) else s
    case SubmitName => if sc == NamePrompt then Join(s) else s
    case ChoosePrivate => if sc == ModeChooser then s.(mode := Private) else s
    case ChooseBroadcast => if sc == ModeChooser then s.(mode := Broadcast) else s
    case TypeRecipient(v) => if sc == RecipientPrompt then s.(privateRecipient := v) else s
    case SubmitRecipient => if sc == RecipientPrompt then ConfirmRecipient(s) else s
    case TypePrivate(v) => if sc == PrivateChat then s.(privateMsg := v) else s
    case SubmitPrivate => if sc == PrivateChat then SendPrivate(s) else s
    case TypeMessage(v) => if sc == GroupChat then s.(message := v) else s
    case SubmitMessage => if sc == GroupChat then SendBroadcast(s) else s
    case ConnectEffect => Connect(s)
    case RosterEffect => AddToRoster(s)
    case Cleanup => Teardown(s)
    case Deliver(ev) => Receive(s, ev)
  }

  /** On its own screen a user event runs its handler: typing sets the
      field, a mode button sets the mode, a submit runs its submit handler;
      effects and listeners always run. */
  lemma StepRunsHandler(s: State, e: Event)
    ensures ScreenOf(s) == NamePrompt && e.TypeName? ==> Step(s, e) == s.(username := e.name)
    ensures ScreenOf(s) == NamePrompt && e == SubmitName ==> Step(s, e) == Join(s)
    ensures ScreenOf(s) == ModeChooser && e == ChoosePrivate ==> Step(s, e) == s.(mode := Private)
    ensures ScreenOf(s) == ModeChooser && e == ChooseBroadcast ==> Step(s, e) == s.(mode := Broadcast)
    ensures ScreenOf(s) == ModeChooser && e == ChoosePrivate && !s.privateRecipientConfirmed ==>
              ScreenOf(Step(s, e)) == RecipientPrompt
    ensures ScreenOf(s) == ModeChooser && e == ChooseBroadcast ==> ScreenOf(Step(s, e)) == GroupChat
    ensures ScreenOf(s) == RecipientPrompt && e.TypeRecipient? ==> Step(s, e) == s.(privateRecipient := e.recipient)
    ensures ScreenOf(s) == RecipientPrompt && e == SubmitRecipient ==> Step(s, e) == ConfirmRecipient(s)
    ensures ScreenOf(s) == PrivateChat && e.TypePrivate? ==> Step(s, e) == s.(privateMsg := e.draft)
    ensures ScreenOf(s) == PrivateChat && e == SubmitPrivate ==> Step(s, e) == SendPrivate(s)
    ensures ScreenOf(s) == GroupChat && e.TypeMessage? ==> Step(s, e) == s.(message := e.draft)
    ensures ScreenOf(s) == GroupChat && e == SubmitMessage ==> Step(s, e) == SendBroadcast(s)
    ensures e == ConnectEffect ==> Step(s, e) == Connect(s)
    ensures e == RosterEffect ==> Step(s, e) == AddToRoster(s)
    ensures e == Cleanup ==> Step(s, e) == Teardown(s)
    ensures e.Deliver? ==> Step(s, e) == Receive(s, e.ev)
  {
    match e
    case TypeName(_) =>
    case SubmitName =>
    case ChoosePrivate =>
    case ChooseBroadcast =>
    case TypeRecipient(_) =>
    case SubmitRecipient =>
    case TypePrivate(_) =>
    case SubmitPrivate =>
    case TypeMessage(_) =>
    case SubmitMessage =>
    case ConnectEffect =>
    case RosterEffect =>
    case Cleanup =>
    case Deliver(_) =>
  }

  /** No step goes back along the screens, and the chat screens are final. */
  lemma StepScreensForward(s: State, e: Event)
    ensures ScreensForward(s, Step(s, e))
  {
  }

  /** A run of events, one after another. */
  function Run(s: State, evs: seq<Event>): State
    decreases |evs|
  {
    if evs == [] then s else Run(Step(s, evs[0]), evs[1..])
  }

  /** Along any run the logs, the roster and the trace only grow at their
      ends, and the screens only move forward. */
  lemma {:induction false} RunForward(s: State, evs: seq<Event>)
    ensures Extends(s, Run(s, evs))
    ensures ScreensForward(s, Run(s, evs))
    decreases |evs|
  {
    if evs != [] {
      StepScreensForward(s, evs[0]);
      RunForward(Step(s, evs[0]), evs[1..]);
    }
  }

  /** A run is a left fold of `Step`: running one more event is one more step. */
  lemma {:induction false} RunSnoc(s: State, evs: seq<Event>, e: Event)
    ensures Run(s, evs + [e]) == Step(Run(s, evs), e)
    decreases |evs|
  {
    if evs == [] {
      assert [] + [e] == [e];
    } else {
      assert (evs + [e])[1..] == evs[1..] + [e];
      RunSnoc(Step(s, evs[0]), evs[1..], e);
    }
  }

  /** Running two runs back to back is running their concatenation. */
  lemma {:induction false} RunConcat(s: State, a: seq<Event>, b: seq<Event>)
    ensures Run(s, a + b) == Run(Run(s, a), b)
    decreases |a|
  {
    if a == [] {
      assert a + b == b;
    } else {
      assert (a + b)[0] == a[0];
      assert (a + b)[1..] == a[1..] + b;
      RunConcat(Step(s, a[0]), a[1..], b);
    }
  }
}

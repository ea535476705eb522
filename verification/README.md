# Chat client session state machine

This project models the client side of a small realtime chat application.
The client is one React component, `App`. A participant types a display
name and joins. The client then opens one socket connection, announces the
participant to the group room (`joinRoom`) and to the private-message
directory (`register`), and asks them to choose between group ("broadcast")
and private chat. For private chat it also asks for a recipient. It then
sends and receives group messages, join notifications and direct messages,
and keeps them in three append-only logs. The private chat screen shows a
filtered view of the direct-message log.

The model turns the component's React state into one immutable record,
`Session.State`. Each handler, effect and socket listener becomes a pure
function from state to state. React runs each of them to completion before
the next, so each one is a single atomic step. The modules are:

- `Records`: the mode, the three kinds of message record, the calls made
  on the socket (`Transport`), and the three inbound socket events as one
  tagged type (`Inbound`).
- `Text`: ECMAScript's `String.prototype.trim` over its exact whitespace
  set, with the blank-string test it stands for.
- `Protocol`: an automaton over the trace of socket calls. It allows one
  handle at a time. Each new handle is announced with `joinRoom` and then
  `register` for the signed-in name. Sends and `disconnect()` are allowed
  only on a live handle.
- `Conversation`: the private-conversation view (the `filter` of the
  private chat screen), with a reference definition by positions.
- `Session`: the state, the screen cascade, the handlers, `Step` (one
  event) and `Run` (a sequence of events).
- `Invariants`: what holds in every state reachable from mount, and the
  consequences for the protocol, the roster and the views.
- `Scenarios`: concrete sessions (alice joining, broadcasting, talking to
  bob, receiving unrelated traffic).

User events are gated by the screen that renders their control. A control
exists only on its own screen (name prompt, mode chooser, recipient prompt,
private chat, group chat), so `Step` ignores a user event that arrives on
any other screen. This is how the model expresses "mode can be chosen only
while unset" and "the name cannot change after joining".

Two facts of the code shape the model:

- `App.jsx:132` tests the private recipient for emptiness without
  trimming it, unlike the name at line 59 and the group draft at line 64.
  A recipient made only of spaces is therefore confirmed and opens the
  private chat screen (`Scenarios.BlankRecipientAccepted`).
- The roster effect (`App.jsx:51-55`) only ever adds the local user's own
  name; no listener adds anyone else. The roster is therefore always empty
  or exactly that one name (`Invariants.ReachableRoster`).

## Model

| member | source | states |
|---|---|---|
| `Text.Trim` | Frontend/src/App.jsx:59 | the result of `trim()` neither starts nor ends with whitespace, and it is empty exactly when the string is blank; so `if (x.trim())` means "x has a visible character" |
| `Text.TrimIsSlice` | Frontend/src/App.jsx:59 | the result of `trim()` is the slice of the string that starts where its leading whitespace ends, with only whitespace on either side of it |
| `Text.TrimIsBothEnds` | Frontend/src/App.jsx:64 | `Trim` equals dropping leading whitespace and then trailing whitespace (the two one-sided trims) |
| `Session.Init` | Frontend/src/App.jsx:8-19 | at mount the user has not joined, has no handle and no mode, the name, recipient and both drafts are empty strings, and every log, the roster and the trace are empty |
| `Session.Join` | Frontend/src/App.jsx:57-60 | submitting the name joins exactly when the name is not blank; nothing else changes, and a blank name leaves the state unchanged |
| `Session.Connect` | Frontend/src/App.jsx:22-27 | with a joined user and no handle, opens a handle and emits `joinRoom(name)` then `register(name)`; otherwise changes nothing; afterwards a joined user always holds a handle |
| `Session.Teardown` | Frontend/src/App.jsx:38-43 | the cleanup disconnects the handle if there is one and always leaves none; nothing else changes |
| `Session.AddToRoster` | Frontend/src/App.jsx:51-55 | the roster grows only at its end, gains exactly the joined non-empty name when it is absent, and stays free of duplicates |
| `Session.SendBroadcast` | Frontend/src/App.jsx:62-70 | a blank draft or a missing handle is a no-op; otherwise emits `chatMessage` and appends `{username, text}` with the untrimmed draft at the end of the group log, then clears the draft |
| `Session.SendPrivate` | Frontend/src/App.jsx:72-79 | an empty recipient, an empty draft (no trim) or a missing handle is a no-op; otherwise emits `{to, message}`, appends `{from, to, message}` to the direct-message log and clears the draft |
| `Session.ConfirmRecipient` | Frontend/src/App.jsx:132 | the recipient is confirmed exactly when it is non-empty, with no trim |
| `Session.Receive` | Frontend/src/App.jsx:28-36 | each inbound event is appended verbatim at the end of its own log and touches nothing else; without a handle nothing arrives |
| `Session.Step` | Frontend/src/App.jsx:81-149 | a user event whose control is not on the current screen changes nothing; every step only appends to the logs, the roster and the trace, and never un-joins |
| `Session.StepRunsHandler` | Frontend/src/App.jsx:81-149 | on its own screen each user event runs its handler: typing sets its field, the private and broadcast buttons set the mode (private leads to the recipient prompt while no recipient is confirmed, broadcast to the group chat), and each submit runs its submit handler; effects and socket listeners always run |
| `Session.StepScreensForward` | Frontend/src/App.jsx:103-149 | no step goes back to an earlier screen; the group chat screen and the private chat screen are final, and the private one keeps its recipient; once a mode is chosen it never changes; the name is frozen once joined |
| `Session.RunForward` | Frontend/src/App.jsx:28-79 | along any run of events the three logs, the roster and the trace only grow at their ends, and the screens only move forward |
| `Protocol.AtMostOneHandle` | Frontend/src/App.jsx:22-43 | in a trace that keeps the protocol, every handle except the current one has been disconnected |
| `Protocol.EveryHandleAnnounced` | Frontend/src/App.jsx:24-27 | in a trace that keeps the protocol, each new handle is immediately followed by `joinRoom(user)` and then by `register(user)`, and each announcement sits right behind its handle |
| `Conversation.PrivateView` | Frontend/src/App.jsx:160-163 | the view is no longer than the log and holds only records exchanged between the two participants |
| `Conversation.ViewMembership` | Frontend/src/App.jsx:160-163 | a record is in the view exactly when it is in the log and goes from self to peer or from peer to self |
| `Conversation.ViewIsExactSelection` | Frontend/src/App.jsx:160-163 | the view is exactly the in-order selection of the log at the increasing positions whose records belong to the conversation |
| `Conversation.ViewSymmetric` | Frontend/src/App.jsx:160-163 | the view does not depend on which participant is self and which is peer |
| `Conversation.ViewOfAppend` | Frontend/src/App.jsx:160-163 | appending a record to the log extends the view by that record when it belongs to the conversation and leaves the view unchanged otherwise |
| `Invariants.InitInv` | Frontend/src/App.jsx:8-19 | the mount state satisfies the reachable-state invariant |
| `Invariants.StepPreservesInv` | Frontend/src/App.jsx:22-79 | every event keeps the invariant: a handle implies joined, a joined name is not blank, a confirmed recipient is non-empty in private mode, the roster is empty or the user's own name, and the trace keeps the socket protocol with the handle flag matching it |
| `Invariants.RunPreservesInv` | Frontend/src/App.jsx:22-79 | any run of events from an invariant state keeps the invariant |
| `Invariants.ReachableKeepsProtocol` | Frontend/src/App.jsx:22-44 | in every reachable state at most the current handle is open, and every handle was announced with `joinRoom` and then `register` for the signed-in name |
| `Invariants.ReachableRoster` | Frontend/src/App.jsx:51-55 | in every reachable state the roster is empty or exactly the signed-in name, and has no duplicates |
| `Invariants.ConnectTwice` | Frontend/src/App.jsx:22-27 | running the connection effect twice opens one handle and emits one `joinRoom`/`register` pair |
| `Invariants.TeardownReleases` | Frontend/src/App.jsx:38-43 | after the cleanup, on every path, the client holds no handle and as many handles were closed as were opened |
| `Invariants.SentPrivateAppearsInView` | Frontend/src/App.jsx:72-79 | a direct message the user sends appears at the end of the conversation view with its recipient, from either side |
| `Invariants.UnrelatedPrivateHidden` | Frontend/src/App.jsx:34-36 | an inbound direct message between other participants is stored but leaves the open conversation's view unchanged |
| `Invariants.LocalEchoKeptTwice` | Frontend/src/App.jsx:31-33 | group messages are not de-duplicated: the local echo and the same record relayed back are both kept |
| `Scenarios.SignInAlice` | Frontend/src/App.jsx:57-60 | typing "alice", submitting, and the two effects give a joined user on the mode chooser with one handle announced as alice and roster `["alice"]` |
| `Scenarios.BlankNameRefused` | Frontend/src/App.jsx:59 | a name of spaces keeps the name prompt, opens no handle and records nobody |
| `Scenarios.BroadcastHi` | Frontend/src/App.jsx:62-70 | alice in broadcast mode sending "hi" gives the group log `[{alice, hi}]` and the emit trace ending in that message |
| `Scenarios.BlankDraftsRefused` | Frontend/src/App.jsx:64 | drafts "" and "   " add nothing to the group log and emit nothing |
| `Scenarios.PrivateHey` | Frontend/src/App.jsx:72-79 | alice confirming bob and sending "hey" stores one record; the view with bob shows it, the view with carol is empty |
| `Scenarios.CarolJoins` | Frontend/src/App.jsx:28-30 | a join notification lands only in the notification log, and the roster does not learn the newcomer |
| `Scenarios.BobWhileTalkingToDave` | Frontend/src/App.jsx:34-36 | bob's message to alice, arriving while alice talks to dave, is stored but absent from the dave view and present in the bob view |
| `Scenarios.BlankRecipientAccepted` | Frontend/src/App.jsx:132 | a recipient made of spaces is confirmed and opens the private chat screen |

## Left out

- Rendering: the JSX, styles, popup layout, bubble classes, avatars and the "You" label (lines 81-221) are not modelled. Only the screen cascade that decides which controls exist is kept.
- The socket.io client library, `SOCKET_URL`, the unused `ROOM` constant and all network behaviour are not modelled. The transport is the `Transport` trace plus `Inbound` events chosen freely by the caller.
- Delivery while disconnected: the model delivers inbound events only while the client holds a handle, because the listeners are attached to that handle.
- Inbound payload shapes: the payloads are typed records. A JavaScript object with missing or extra fields (missing ones read as `undefined`) is not modelled.
- The `scrollIntoView` effect (lines 46-48) is not modelled. It is a DOM side effect only.
- The display-time fallback `new Date().toLocaleTimeString` (line 204) is not modelled. It depends on the clock and the locale. The stored `time` field is kept as an optional string.
- React scheduling is not modelled: effect dependency re-runs, batched `setState`, the identity of refs and the double-mount of development mode. Each handler, effect or cleanup is one atomic event that the caller may issue at any time, and the guards inside them are modelled as written. `Cleanup` stands for both an unmount and a re-run of the effect.
- The browser's `required` attribute on the name and recipient inputs is not modelled. It blocks empty submissions, and the handlers' own guards already refuse those.
- `e.preventDefault()` is not modelled. It is browser plumbing with no effect on state.

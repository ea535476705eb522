/** Records that flow through the chat client: the interaction mode, the
    three kinds of stored message, the calls the client makes on its socket
    handle, and the events the socket delivers to it. */
module Records {

  datatype Option<+T> = None | Some(value: T)

  /** The `mode` field: the empty string before a choice, then 'private' or
      'broadcast'. No control of the client ever sets any other value. */
  datatype Mode = Unset | Private | Broadcast

  /** A group-chat record. A locally sent one is `{username, text}`; one
      relayed by the server may also carry a display `time`. */
  datatype ChatMessage = ChatMessage(username: string, text: string, time: Option<string>)

  /** A direct-message record, always stored with both ends filled in. */
  datatype PrivateMessage = PrivateMessage(from: string, to: string, message: string)

  /** One call the client makes on the socket, in the order it makes them. */
  datatype Transport =
    | Open                                    // a new handle is created
    | JoinRoom(name: string)                  // emit 'joinRoom'
    | Register(name: string)                  // emit 'register'
    | ChatOut(msg: ChatMessage)               // emit 'chatMessage'
    | PrivateOut(to: string, message: string) // emit 'privateMessage'
    | Close                                   // disconnect()

  /** The three socket listeners, as one tagged inbound channel. */
  datatype Inbound =
    | UserJoined(note: string)
    | ChatIn(msg: ChatMessage)
    | PrivateIn(pm: PrivateMessage)
}

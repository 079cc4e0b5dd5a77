/**
 * The events that pass between the server and its clients, and the value of
 * the server's state: the `users` registry plus the log of everything emitted.
 */
module Protocol {
  import opened JsText

  /** The two addressing forms this model distinguishes: every connected
      client (`io.emit`) or one socket (`socket.emit`). */
  datatype Audience = Everyone | OneSocket(id: string)

  /** Server-to-client events: a snapshot of the registry (`users`), a chat
      line (`message`) and a buzz (`buzzer`, whose name may be `undefined`). */
  datatype Event =
    | UsersEvent(snapshot: map<string, string>)
    | MessageEvent(text: string)
    | BuzzerEvent(name: Option<string>, timestamp: string)

  datatype Emission = Emission(audience: Audience, event: Event)

  /** What the transport delivers to the server, tagged with the socket id it
      came from. The buzzer's clock reading is supplied from outside. */
  datatype Inbound =
    | OnConnection(id: string)
    | OnMessage(id: string, message: string)
    | OnBuzzer(id: string, timestamp: string)
    | OnSetName(id: string, name: string)
    | OnDisconnect(id: string)

  /** The module-level state: socket id to display name, and the emitted events in order. */
  datatype Session = Session(users: map<string, string>, outbox: seq<Emission>)

  const Initial: Session := Session(map[], [])

  function Broadcast(e: Event): (m: Emission)
  {
    Emission(Everyone, e)
  }
}

/**
 * The server as the source runs it: one object holding the module-level
 * `users` registry and the log of `io.emit` calls, and one method per event
 * handler, each updating the registry in place and then emitting. Every method
 * is proved against the matching function of `Handlers`.
 */
module Gateway {
  import opened JsText
  import opened Protocol
  import Handlers

  class Server {
    /** `let users = {}`: socket id to display name. */
    var users: map<string, string>
    /** Every event emitted so far, oldest first. */
    var outbox: seq<Emission>

    function State(): Session
      reads this
    {
      Session(users, outbox)
    }

    constructor ()
      ensures State() == Initial
    {
      users := map[];
      outbox := [];
    }

    /** The body of the `connection` callback before any handler runs. */
    method Connect(id: string)
      modifies this
      ensures State() == Handlers.Connect(old(State()), id)
      ensures users == old(users)[id := Handlers.DefaultName(id)]
      ensures outbox == old(outbox) + [Emission(Everyone, UsersEvent(users))]
    {
      users := users[id := Handlers.DefaultName(id)];
      outbox := outbox + [Broadcast(UsersEvent(users))];
    }

    method Message(id: string, message: string)
      modifies this
      ensures State() == Handlers.SendMessage(old(State()), id, message)
      ensures users == old(users)
      ensures outbox == old(outbox) + [Emission(Everyone, MessageEvent(Handlers.ChatLine(Handlers.Lookup(users, id), message)))]
    {
      var line := Handlers.ChatLine(Handlers.Lookup(users, id), message);
      outbox := outbox + [Broadcast(MessageEvent(line))];
    }

    /** `timestamp` is the clock reading the source takes at the press. */
    method Buzzer(id: string, timestamp: string)
      modifies this
      ensures State() == Handlers.PressBuzzer(old(State()), id, timestamp)
      ensures users == old(users)
      ensures outbox == old(outbox) + [Emission(Everyone, BuzzerEvent(Handlers.Lookup(users, id), timestamp))]
    {
      outbox := outbox + [Broadcast(BuzzerEvent(Handlers.Lookup(users, id), timestamp))];
    }

    method SetName(id: string, name: string)
      modifies this
      ensures State() == Handlers.SetName(old(State()), id, name)
      ensures !Handlers.AcceptsName(name) ==> users == old(users) && outbox == old(outbox)
      ensures Handlers.AcceptsName(name) ==>
        && users == old(users)[id := name]
        && outbox == old(outbox) + [Emission(Everyone, UsersEvent(users))]
    {
      if Truthy(name) && Truthy(Trim(name)) {
        users := users[id := name];
        outbox := outbox + [Broadcast(UsersEvent(users))];
      }
    }

    method Disconnect(id: string)
      modifies this
      ensures State() == Handlers.Disconnect(old(State()), id)
      ensures users == old(users) - {id}
      ensures outbox == old(outbox) + [Emission(Everyone, UsersEvent(users))]
    {
      users := users - {id};
      outbox := outbox + [Broadcast(UsersEvent(users))];
    }

    /** Dispatch one inbound event to its handler. */
    method Handle(e: Inbound)
      modifies this
      ensures State() == Handlers.Step(old(State()), e)
    {
      match e
      case OnConnection(id) => Connect(id);
      case OnMessage(id, message) => Message(id, message);
      case OnBuzzer(id, timestamp) => Buzzer(id, timestamp);
      case OnSetName(id, name) => SetName(id, name);
      case OnDisconnect(id) => Disconnect(id);
    }
  }
}

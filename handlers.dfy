/**
 * The five handlers of the `connection` callback as functions from the state
 * before an event to the state after it, and the fold of a whole event trace.
 */
module Handlers {
  import opened JsText
  import opened Protocol

  /** `users[id]`: the stored name, or `undefined` for an id that is not a key. */
  function Lookup(users: map<string, string>, id: string): (v: Option<string>)
  {
    if id in users then Some(users[id]) else None
  }

  /** The reads the handlers rely on: after an assignment `users[id]` is the
      assigned name, after `delete` it is `undefined`, and neither touches the
      value read at any other key. */
  lemma LookupAfterChange(users: map<string, string>, id: string, name: string, k: string)
    ensures Lookup(users[id := name], id) == Some(name)
    ensures Lookup(users - {id}, id) == None
    ensures k != id ==> Lookup(users[id := name], k) == Lookup(users, k)
    ensures k != id ==> Lookup(users - {id}, k) == Lookup(users, k)
  {
  }

  /** How a template literal renders `users[id]`. */
  function Interpolate(v: Option<string>): (r: string)
  {
    match v
    case Some(s) => s
    case None => "undefined"
  }

  /** The name given to a socket on connection: "User" and then the first two
      characters of its id, or the whole id when it is shorter. */
  function DefaultName(id: string): (r: string)
    ensures |r| == 4 + (if |id| < 2 then |id| else 2)
    ensures r[..4] == "User" && r[4..] == id[..|r| - 4]
  {
    "User" + Substr(id, 0, 2)
  }

  /** The chat line broadcast for `message`: the sender's name as rendered,
      then ": ", then the message unchanged. */
  function ChatLine(name: Option<string>, message: string): (r: string)
    ensures var n := Interpolate(name);
      && |r| == |n| + 2 + |message|
      && r[..|n|] == n && r[|n|..|n| + 2] == ": " && r[|n| + 2..] == message
  {
    Interpolate(name) + ": " + message
  }

  /** The guard `name && name.trim()` of `setName`. */
  predicate AcceptsName(name: string)
    ensures AcceptsName(name) <==> !AllWhitespace(name)
  {
    Truthy(name) && Truthy(Trim(name))
  }

  /** connection: register the default name, then send everyone the registry. */
  function Connect(s: Session, id: string): (t: Session)
    ensures t.users.Keys == s.users.Keys + {id} && t.users[id] == DefaultName(id)
    ensures forall k :: k in s.users && k != id ==> t.users[k] == s.users[k]
    ensures t.outbox == s.outbox + [Broadcast(UsersEvent(t.users))]
  {
    var users := s.users[id := DefaultName(id)];
    Session(users, s.outbox + [Broadcast(UsersEvent(users))])
  }

  /** message: leave the registry alone and send everyone the prefixed line. */
  function SendMessage(s: Session, id: string, message: string): (t: Session)
    ensures t.users == s.users
    ensures |t.outbox| == |s.outbox| + 1 && t.outbox[..|s.outbox|] == s.outbox
    ensures t.outbox[|s.outbox|] == Broadcast(MessageEvent(ChatLine(Lookup(s.users, id), message)))
  {
    Session(s.users, s.outbox + [Broadcast(MessageEvent(ChatLine(Lookup(s.users, id), message)))])
  }

  /** buzzer: no admission check; every press sends everyone the sender's
      current name and the time it was pressed. */
  function PressBuzzer(s: Session, id: string, timestamp: string): (t: Session)
    ensures t.users == s.users
    ensures |t.outbox| == |s.outbox| + 1 && t.outbox[..|s.outbox|] == s.outbox
    ensures t.outbox[|s.outbox|] == Broadcast(BuzzerEvent(Lookup(s.users, id), timestamp))
  {
    Session(s.users, s.outbox + [Broadcast(BuzzerEvent(Lookup(s.users, id), timestamp))])
  }

  /** setName: a blank name changes nothing and sends nothing; any other name
      is stored exactly as given (untrimmed), inserting the id if it was absent,
      and everyone is sent the registry. */
  function SetName(s: Session, id: string, name: string): (t: Session)
    ensures !AcceptsName(name) ==> t == s
    ensures AcceptsName(name) ==>
      && t.users.Keys == s.users.Keys + {id} && t.users[id] == name
      && (forall k :: k in s.users && k != id ==> t.users[k] == s.users[k])
      && t.outbox == s.outbox + [Broadcast(UsersEvent(t.users))]
  {
    if AcceptsName(name) then
      var users := s.users[id := name];
      Session(users, s.outbox + [Broadcast(UsersEvent(users))])
    else
      s
  }

  /** disconnect: delete the entry (a no-op on the map if it is absent) and
      send everyone what remains. */
  function Disconnect(s: Session, id: string): (t: Session)
    ensures t.users.Keys == s.users.Keys - {id}
    ensures forall k :: k in t.users ==> t.users[k] == s.users[k]
    ensures t.outbox == s.outbox + [Broadcast(UsersEvent(t.users))]
  {
    var users := s.users - {id};
    Session(users, s.outbox + [Broadcast(UsersEvent(users))])
  }

  function Sender(e: Inbound): (id: string)
  {
    match e
    case OnConnection(id) => id
    case OnMessage(id, _) => id
    case OnBuzzer(id, _) => id
    case OnSetName(id, _) => id
    case OnDisconnect(id) => id
  }

  /** One inbound event, dispatched by name. At most one event is emitted, it
      goes to everyone, a `users` event carries the registry as it stands after
      the change, and only the sender's own entry can change. */
  function Step(s: Session, e: Inbound): (t: Session)
    ensures t.outbox == s.outbox || (
      && |t.outbox| == |s.outbox| + 1 && t.outbox[..|s.outbox|] == s.outbox
      && t.outbox[|s.outbox|].audience == Everyone
      && (t.outbox[|s.outbox|].event.UsersEvent? ==> t.outbox[|s.outbox|].event.snapshot == t.users))
    ensures t.outbox == s.outbox ==> t == s
    ensures forall k :: k != Sender(e) ==> Lookup(t.users, k) == Lookup(s.users, k)
  {
    match e
    case OnConnection(id) => Connect(s, id)
    case OnMessage(id, message) => SendMessage(s, id, message)
    case OnBuzzer(id, timestamp) => PressBuzzer(s, id, timestamp)
    case OnSetName(id, name) => SetName(s, id, name)
    case OnDisconnect(id) => Disconnect(s, id)
  }

  /** The events handled one after another, in arrival order. */
  function Run(s: Session, es: seq<Inbound>): (t: Session)
    ensures |s.outbox| <= |t.outbox| && t.outbox[..|s.outbox|] == s.outbox
    decreases |es|
  {
    if es == [] then s else Run(Step(s, es[0]), es[1..])
  }
}

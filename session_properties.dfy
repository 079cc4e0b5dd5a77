/**
 * Properties of whole traces of inbound events: the emission log only grows,
 * by one event per handled event except a rejected rename; everything emitted
 * goes to everyone; one socket's entry depends only on that socket's own
 * events; and the buzzer takes any number of presses.
 */
module SessionProperties {
  import opened JsText
  import opened Protocol
  import opened Handlers

  /** The `name &&` half of the guard adds nothing for strings: `trim` alone decides. */
  lemma AcceptsNameIff(name: string)
    ensures AcceptsName(name) <==> Truthy(Trim(name))
  {
    if Trim(name) != "" {
      assert name != "";
    }
  }

  predicate AllToEveryone(outbox: seq<Emission>)
  {
    forall k :: 0 <= k < |outbox| ==> outbox[k].audience == Everyone
  }

  /** The number of events in `es` that `setName` rejects. */
  function Rejected(es: seq<Inbound>): (n: nat)
    ensures n <= |es|
    decreases |es|
  {
    if es == [] then 0
    else (if es[0].OnSetName? && !AcceptsName(es[0].name) then 1 else 0) + Rejected(es[1..])
  }

  /** The log is append-only, and every inbound event adds exactly one
      emission except a rejected `setName`, which adds none. */
  lemma {:induction false} RunEmissionCount(s: Session, es: seq<Inbound>)
    ensures var t := Run(s, es);
      && |s.outbox| <= |t.outbox| && t.outbox[..|s.outbox|] == s.outbox
      && |t.outbox| == |s.outbox| + |es| - Rejected(es)
    decreases |es|
  {
    if es != [] {
      var s' := Step(s, es[0]);
      RunEmissionCount(s', es[1..]);
      var t := Run(s', es[1..]);
      assert t.outbox[..|s.outbox|] == t.outbox[..|s'.outbox|][..|s.outbox|];
    }
  }

  /** No handler addresses a single socket: starting from a log sent only to
      everyone, every emission of any trace is sent to everyone, so a sender
      receives its own message and buzz. */
  lemma {:induction false} RunOnlyBroadcasts(s: Session, es: seq<Inbound>)
    requires AllToEveryone(s.outbox)
    ensures AllToEveryone(Run(s, es).outbox)
    decreases |es|
  {
    if es != [] {
      var s' := Step(s, es[0]);
      assert AllToEveryone(s'.outbox) by {
        forall k | 0 <= k < |s'.outbox| ensures s'.outbox[k].audience == Everyone {
          if k < |s.outbox| {
            assert s'.outbox[k] == s'.outbox[..|s.outbox|][k];
          }
        }
      }
      RunOnlyBroadcasts(s', es[1..]);
    }
  }

  /** The events of `es` sent by socket `id`, in order. */
  function OwnEvents(es: seq<Inbound>, id: string): (r: seq<Inbound>)
    ensures |r| <= |es|
    ensures forall k :: 0 <= k < |r| ==> Sender(r[k]) == id
    decreases |es|
  {
    if es == [] then []
    else (if Sender(es[0]) == id then [es[0]] else []) + OwnEvents(es[1..], id)
  }

  /** What a socket's own event does to its entry depends on nothing but that entry. */
  lemma StepOwnEntry(s1: Session, s2: Session, e: Inbound)
    requires Lookup(s1.users, Sender(e)) == Lookup(s2.users, Sender(e))
    ensures Lookup(Step(s1, e).users, Sender(e)) == Lookup(Step(s2, e).users, Sender(e))
  {
    match e
    case OnConnection(id) =>
    case OnMessage(id, _) =>
    case OnBuzzer(id, _) =>
    case OnSetName(id, name) =>
    case OnDisconnect(id) =>
  }

  /** Isolation between sockets: the entry of `id` after a trace is the one
      obtained by running only the events `id` itself sent. */
  lemma {:induction false} RunIsolation(s1: Session, s2: Session, es: seq<Inbound>, id: string)
    requires Lookup(s1.users, id) == Lookup(s2.users, id)
    ensures Lookup(Run(s1, es).users, id) == Lookup(Run(s2, OwnEvents(es, id)).users, id)
    decreases |es|
  {
    if es != [] {
      var e := es[0];
      if Sender(e) == id {
        var own := OwnEvents(es, id);
        assert own == [e] + OwnEvents(es[1..], id);
        assert own[0] == e && own[1..] == OwnEvents(es[1..], id);
        StepOwnEntry(s1, s2, e);
        RunIsolation(Step(s1, e), Step(s2, e), es[1..], id);
      } else {
        assert OwnEvents(es, id) == OwnEvents(es[1..], id);
        RunIsolation(Step(s1, e), s2, es[1..], id);
      }
    }
  }

  /** `id` pressing the buzzer once at each of the times in `ts`. */
  function Presses(id: string, ts: seq<string>): (r: seq<Inbound>)
    ensures |r| == |ts| && forall k :: 0 <= k < |ts| ==> r[k] == OnBuzzer(id, ts[k])
    decreases |ts|
  {
    if ts == [] then [] else [OnBuzzer(id, ts[0])] + Presses(id, ts[1..])
  }

  /** One buzzer emission per time in `ts`, all carrying `name`. */
  function Buzzes(name: Option<string>, ts: seq<string>): (r: seq<Emission>)
    ensures |r| == |ts|
    decreases |ts|
  {
    if ts == [] then [] else [Broadcast(BuzzerEvent(name, ts[0]))] + Buzzes(name, ts[1..])
  }

  /** The k-th buzz carries the k-th time, sent to everyone. */
  lemma {:induction false} BuzzesAt(name: Option<string>, ts: seq<string>, k: nat)
    requires k < |ts|
    ensures Buzzes(name, ts)[k] == Emission(Everyone, BuzzerEvent(name, ts[k]))
    decreases |ts|
  {
    if k > 0 {
      BuzzesAt(name, ts[1..], k - 1);
    }
  }

  /** The buzzer has no admission control: any number of presses by the same
      socket leaves the registry alone and emits one buzz per press, each with
      the sender's current name and that press's time. */
  lemma {:induction false} RunUnlimitedBuzzes(s: Session, id: string, ts: seq<string>)
    ensures Run(s, Presses(id, ts)) == Session(s.users, s.outbox + Buzzes(Lookup(s.users, id), ts))
    decreases |ts|
  {
    var name := Lookup(s.users, id);
    if ts != [] {
      var b := Broadcast(BuzzerEvent(name, ts[0]));
      var s' := Session(s.users, s.outbox + [b]);
      var rest := Buzzes(name, ts[1..]);
      assert Run(s, Presses(id, ts)) == Run(s', Presses(id, ts[1..])) by {
        var ps := Presses(id, ts);
        assert ps[0] == OnBuzzer(id, ts[0]) && ps[1..] == Presses(id, ts[1..]);
        assert Step(s, ps[0]) == s';
      }
      RunUnlimitedBuzzes(s', id, ts[1..]);
      assert s'.outbox + rest == s.outbox + Buzzes(name, ts) by {
        assert Buzzes(name, ts) == [b] + rest;
      }
    } else {
      assert Presses(id, ts) == [] && Buzzes(name, ts) == [];
      assert s.outbox + [] == s.outbox;
    }
  }

  /** After a socket connects and then disconnects, with no event in between,
      its entry is gone, every other entry is as it was, and everyone has been
      sent two snapshots: the map with its default name, then the map without it. */
  lemma ConnectThenDisconnect(s: Session, id: string)
    ensures var t := Run(s, [OnConnection(id), OnDisconnect(id)]);
      && t.users == s.users - {id}
      && t.outbox == s.outbox + [Broadcast(UsersEvent(s.users[id := DefaultName(id)])),
                                 Broadcast(UsersEvent(s.users - {id}))]
  {
    var s1 := Step(s, OnConnection(id));
    assert Run(s1, [OnDisconnect(id)]) == Step(s1, OnDisconnect(id));
    assert s1.users - {id} == s.users - {id};
  }

  /** No event of `es` is the disconnection of `id`. */
  predicate StaysConnected(es: seq<Inbound>, id: string)
  {
    forall k :: 0 <= k < |es| ==> es[k] != OnDisconnect(id)
  }

  /** Only a socket's own disconnection removes its entry. */
  lemma {:induction false} StaysRegistered(s: Session, es: seq<Inbound>, id: string)
    requires id in s.users && StaysConnected(es, id)
    ensures id in Run(s, es).users
    decreases |es|
  {
    if es != [] {
      var s' := Step(s, es[0]);
      assert id in s'.users by {
        if Sender(es[0]) != id {
          assert Lookup(s'.users, id) == Lookup(s.users, id);
        } else {
          assert es[0] != OnDisconnect(id);
        }
      }
      assert StaysConnected(es[1..], id) by {
        forall k | 0 <= k < |es| - 1 ensures es[1..][k] != OnDisconnect(id) {
          assert es[1..][k] == es[k + 1];
        }
      }
      StaysRegistered(s', es[1..], id);
    }
  }

  /** Between a socket's connection and its disconnection its entry is
      always present, so its chat lines and buzzes carry a stored name, never
      `undefined`. */
  lemma {:induction false} ConnectedSenderHasName(s: Session, es: seq<Inbound>, id: string)
    requires StaysConnected(es, id)
    ensures Lookup(Run(s, [OnConnection(id)] + es).users, id).Some?
  {
    var c := [OnConnection(id)] + es;
    assert c[0] == OnConnection(id) && c[1..] == es;
    StaysRegistered(Step(s, OnConnection(id)), es, id);
  }
}

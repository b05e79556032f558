/** The hub and its clients as objects that change in place: the three cases of
    Hub.Run, the broadcast loop over the client map, and the writer's drain loop with
    the hub acting between any two of its receives. */
module HubObjects {
  import opened Text
  import opened Chat
  import opened ChatInvariant
  import opened ChatTheorems

  /** What the hub can do to a channel while its writer is busy. */
  datatype HubAction = Send(message: Bytes) | CloseIt

  function Act(ch: Chan, a: HubAction): Chan {
    match a
    case Send(m) => ch.(buf := ch.buf + [m])
    case CloseIt => ch.(closed := true)
  }

  function ActAll(ch: Chan, acts: seq<HubAction>): (r: Chan)
    ensures |ch.buf| <= |r.buf| && r.buf[..|ch.buf|] == ch.buf
    decreases |acts|
  {
    if acts == [] then ch else ActAll(Act(ch, acts[0]), acts[1..])
  }

  /** The messages among the actions, in order. */
  function Sent(acts: seq<HubAction>): (ms: seq<Bytes>) {
    if acts == [] then []
    else (if acts[0].Send? then [acts[0].message] else []) + Sent(acts[1..])
  }

  function AllSent(env: seq<seq<HubAction>>): seq<Bytes> {
    if env == [] then [] else AllSent(env[..|env| - 1]) + Sent(env[|env| - 1])
  }

  lemma {:induction false} ActAllAppends(ch: Chan, acts: seq<HubAction>)
    ensures ActAll(ch, acts).buf == ch.buf + Sent(acts)
    decreases |acts|
  {
    if acts != [] {
      ActAllAppends(Act(ch, acts[0]), acts[1..]);
    }
  }

  class Client {
    var send: Chan

    constructor ()
      ensures send == Chan([], false)
    {
      send := Chan([], false);
    }

    /** `<-c.send`: the oldest message, or the zero value of a closed empty channel. */
    method Receive() returns (message: Bytes)
      requires CanReceive(send)
      modifies this
      ensures old(send.buf) != [] ==>
                message == old(send.buf)[0] && send == old(send).(buf := old(send.buf)[1..])
      ensures old(send.buf) == [] ==> message == [] && send == old(send)
    {
      if send.buf == [] {
        message := [];
      } else {
        message := send.buf[0];
        send := send.(buf := send.buf[1..]);
      }
    }

    /** The frame writePump builds around a received message. `env` is everything the
        hub does meanwhile: env[i] happens just before the i-th receive of the loop.
        The frame holds the first message and exactly what was buffered when the loop
        began; what the hub adds stays in the channel, in order; no receive blocks. */
    method WriteFrame(first: Bytes, env: seq<seq<HubAction>>) returns (frame: Bytes)
      requires |env| == |send.buf|
      modifies this
      ensures frame == Join(NEWLINE, [first] + old(send.buf))
      ensures send.buf == AllSent(env)
    {
      var n := |send.buf|;
      ghost var was := send.buf;
      frame := first;
      for i := 0 to n
        invariant frame == Join(NEWLINE, [first] + was[..i])
        invariant send.buf == was[i..] + AllSent(env[..i])
      {
        ActAllAppends(send, env[i]);
        BufferAdvances(was, env, i);
        JoinSnoc(NEWLINE, [first] + was[..i], was[i]);
        send := ActAll(send, env[i]);
        frame := frame + [NEWLINE];
        var message := Receive();
        frame := frame + message;
      }
      assert env[..n] == env && was[..n] == was && was[n..] == [];
    }
  }

  /** The buffer after the hub's i-th batch of actions, seen from the i-th receive. */
  lemma BufferAdvances(was: seq<Bytes>, env: seq<seq<HubAction>>, i: nat)
    requires i < |was| == |env|
    ensures was[i..] + AllSent(env[..i]) + Sent(env[i]) == [was[i]] + (was[i + 1..] + AllSent(env[..i + 1]))
    ensures forall first :: [first] + was[..i + 1] == [first] + was[..i] + [was[i]]
  {
    assert env[..i + 1][..i] == env[..i];
  }

  lemma {:induction false} JoinSnoc(sep: Byte, ms: seq<Bytes>, m: Bytes)
    requires ms != []
    ensures Join(sep, ms + [m]) == Join(sep, ms) + [sep] + m
  {
    if |ms| == 1 {
      assert (ms + [m])[1..] == [m];
    } else {
      assert (ms + [m])[1..] == ms[1..] + [m];
      JoinSnoc(sep, ms[1..], m);
    }
  }

  class HubObject {
    var clients: set<Client>

    /** Every registered client's channel is open and within its capacity. */
    ghost predicate Valid()
      reads this, clients
    {
      forall c :: c in clients ==> !c.send.closed && |c.send.buf| <= BUF_SIZE
    }

    constructor ()
      ensures Valid() && clients == {}
    {
      clients := {};
    }

    method Register(client: Client)
      requires Valid() && !client.send.closed && |client.send.buf| <= BUF_SIZE
      modifies this
      ensures Valid() && clients == old(clients) + {client}
    {
      clients := clients + {client};
    }

    /** Closing is guarded by membership, so a second request is harmless. */
    method Unregister(client: Client)
      requires Valid()
      modifies this, client
      ensures Valid() && clients == old(clients) - {client}
      ensures client.send == if client in old(clients) then old(client.send).(closed := true) else old(client.send)
    {
      if client in clients {
        clients := clients - {client};
        assert !client.send.closed;
        client.send := client.send.(closed := true);
      }
    }

    /** The broadcast loop, in whatever order the map is iterated: clients with room
        get the message behind what they had, full ones are closed and dropped. */
    method Broadcast(message: Bytes)
      requires Valid()
      modifies this, clients
      ensures Valid()
      ensures clients == set c | c in old(clients) && |old(c.send.buf)| < BUF_SIZE
      ensures forall c :: c in old(clients) ==>
                c.send == Deliver(old(c.send), message)
    {
      var todo := clients;
      while todo != {}
        invariant todo <= clients <= old(clients)
        invariant forall c :: c in todo ==> c.send == old(c.send)
        invariant forall c :: c in old(clients) && c !in todo ==>
                    c.send == Deliver(old(c.send), message)
        invariant forall c :: c in old(clients) && c !in todo ==>
                    (c in clients <==> |old(c.send.buf)| < BUF_SIZE)
        decreases todo
      {
        var client :| client in todo;
        todo := todo - {client};
        assert !client.send.closed;
        if |client.send.buf| < BUF_SIZE {
          client.send := client.send.(buf := client.send.buf + [message]);
        } else {
          client.send := client.send.(closed := true);
          clients := clients - {client};
        }
      }
    }
  }

  /** The object's broadcast loop and an uninterrupted round of the step machine do the
      same: the machine reaches, in any order, the state in which every client's channel
      is the delivered one and exactly the clients that had room are left. */
  lemma BroadcastMatchesMachine(s: State, order: seq<ClientId>)
    requires Inv(s) && s.hub.Round? && s.hub.todo == s.clients && Enumerates(order, s.clients)
    ensures CanRun(s, Offers(order))
    ensures var t := After(s, Offers(order));
            && t.clients == (set id | id in s.clients && |s.conns[id].send.buf| < BUF_SIZE)
            && forall id :: id in s.clients ==>
                 id in t.conns && t.conns[id].send == Deliver(s.conns[id].send, s.hub.message)
  {
    RoundOrderIrrelevant(s, order);
    assert s.clients <= s.conns.Keys;
  }
}

/** The relay's session registry, shared by both server variants
    (obs-timer-server/src/server-main.js and obs_timer_server/src/server.js carry the
    same code): the `clients` set of WebSocket connections in insertion order, the
    `connectedIPs` set kept for logging, and `broadcast`, which sends only to
    connections whose ready state is OPEN. Sent frames are recorded in `outbox`. */
module Registry {
  import opened Base
  import opened Json

  /** The ready state of a WebSocket, driven by the transport. */
  datatype ReadyState = Connecting | Open | Closing | Closed

  /** One WebSocket connection: its identity, the remote address stored on it at
      connection time, and its current ready state. */
  datatype Session = Session(id: nat, ip: string, state: ReadyState)

  /** The frames the relay sends to its sessions. */
  datatype OutMsg =
    | VideoUpdate(data: JVal, config: Obj)
    | ConfigUpdated(config: Obj)

  /** A frame the relay acts on, `parsed.type === 'FROM_EXTENSION' && parsed.data`;
      None is a frame that is not JSON. */
  predicate Accepted(frame: Option<JVal>)
  {
    frame.Some? && Prop(frame.value, Type) == Some(JStr("FROM_EXTENSION"))
    && Prop(frame.value, Data).Some? && Truthy(Prop(frame.value, Data).value)
  }

  /** One frame sent to one session. */
  datatype Delivery = Delivery(to: nat, msg: OutMsg)

  function Ids(cs: seq<Session>): set<nat>
  {
    set c | c in cs :: c.id
  }

  predicate DistinctIds(cs: seq<Session>)
  {
    forall i, j :: 0 <= i < j < |cs| ==> cs[i].id != cs[j].id
  }

  function IpsOf(cs: seq<Session>): set<string>
  {
    set c | c in cs :: c.ip
  }

  /** The remote address stored on the session `id`. */
  function IpOf(cs: seq<Session>, id: nat): (ip: string)
    requires id in Ids(cs)
    ensures exists c :: c in cs && c.id == id && c.ip == ip
  {
    if cs[0].id == id then cs[0].ip else IpOf(cs[1..], id)
  }

  /** `clients.delete(ws)`: the sessions other than `id`, in the same order. */
  function Without(cs: seq<Session>, id: nat): (r: seq<Session>)
    ensures forall c :: c in r <==> c in cs && c.id != id
    ensures DistinctIds(cs) ==> DistinctIds(r)
    ensures |r| <= |cs|
  {
    if cs == [] then []
    else if cs[0].id == id then Without(cs[1..], id)
    else [cs[0]] + Without(cs[1..], id)
  }

  /** The transport moved session `id` to ready state `st`. */
  function WithState(cs: seq<Session>, id: nat, st: ReadyState): (r: seq<Session>)
    ensures |r| == |cs|
    ensures forall i :: 0 <= i < |cs| ==>
      r[i] == if cs[i].id == id then cs[i].(state := st) else cs[i]
  {
    if cs == [] then [] else [if cs[0].id == id then cs[0].(state := st) else cs[0]] + WithState(cs[1..], id, st)
  }

  /** The frames one `broadcast(msg)` sends: one to each OPEN session, in set order. */
  function OpenDeliveries(cs: seq<Session>, msg: OutMsg): seq<Delivery>
  {
    if cs == [] then []
    else
      var last := cs[|cs| - 1];
      OpenDeliveries(cs[..|cs| - 1], msg) + (if last.state == Open then [Delivery(last.id, msg)] else [])
  }

  /** The frames session `id` received, in order. */
  function Inbox(out: seq<Delivery>, id: nat): seq<OutMsg>
  {
    if out == [] then []
    else Inbox(out[..|out| - 1], id) + (if out[|out| - 1].to == id then [out[|out| - 1].msg] else [])
  }

  lemma {:induction false} InboxAppend(a: seq<Delivery>, b: seq<Delivery>, id: nat)
    ensures Inbox(a + b, id) == Inbox(a, id) + Inbox(b, id)
    decreases |b|
  {
    if b == [] {
      assert a + b == a;
    } else {
      var b' := b[..|b| - 1];
      assert (a + b)[..|a + b| - 1] == a + b';
      InboxAppend(a, b', id);
    }
  }

  /** Session `id` is registered and OPEN. */
  predicate OpenIn(cs: seq<Session>, id: nat)
  {
    exists i :: 0 <= i < |cs| && cs[i].id == id && cs[i].state == Open
  }

  /** A broadcast reaches every OPEN session exactly once and no other session. */
  lemma {:induction false} BroadcastReachesOpenOnce(cs: seq<Session>, msg: OutMsg, id: nat)
    requires DistinctIds(cs)
    ensures Inbox(OpenDeliveries(cs, msg), id) == if OpenIn(cs, id) then [msg] else []
    decreases |cs|
  {
    if cs != [] {
      var n := |cs| - 1;
      var init, last := cs[..n], cs[n];
      assert DistinctIds(init) by {
        forall i, j | 0 <= i < j < |init| ensures init[i].id != init[j].id {
          assert init[i] == cs[i] && init[j] == cs[j];
        }
      }
      BroadcastReachesOpenOnce(init, msg, id);
      var tail := if last.state == Open then [Delivery(last.id, msg)] else [];
      assert OpenDeliveries(cs, msg) == OpenDeliveries(init, msg) + tail;
      InboxAppend(OpenDeliveries(init, msg), tail, id);
      if tail != [] {
        assert tail[..0] == [];
      }
      assert Inbox(tail, id) == if last.id == id && last.state == Open then [msg] else [];
      if OpenIn(init, id) {
        var i :| 0 <= i < |init| && init[i].id == id && init[i].state == Open;
        assert cs[i] == init[i];
        assert last.id != id;
      }
      if OpenIn(cs, id) {
        var i :| 0 <= i < |cs| && cs[i].id == id && cs[i].state == Open;
        if i < n { assert init[i] == cs[i]; }
      }
    }
  }

  /** A ready-state change keeps the identities and the addresses of the sessions. */
  lemma WithStateKeeps(cs: seq<Session>, id: nat, st: ReadyState)
    ensures DistinctIds(cs) ==> DistinctIds(WithState(cs, id, st))
    ensures IpsOf(WithState(cs, id, st)) == IpsOf(cs)
  {
    var r := WithState(cs, id, st);
    assert forall i :: 0 <= i < |r| ==> r[i].id == cs[i].id && r[i].ip == cs[i].ip;
    forall ip | ip in IpsOf(r) ensures ip in IpsOf(cs) {
      var c :| c in r && c.ip == ip;
      var i :| 0 <= i < |r| && r[i] == c;
      assert cs[i] in cs;
    }
    forall ip | ip in IpsOf(cs) ensures ip in IpsOf(r) {
      var c :| c in cs && c.ip == ip;
      var i :| 0 <= i < |cs| && cs[i] == c;
      assert r[i] in r;
    }
  }

  class Registry {
    var clients: seq<Session>
    var connectedIPs: set<string>
    var outbox: seq<Delivery>

    /** The connections are distinct, and an address is in `connectedIPs` exactly
        while some connection from it is registered. */
    ghost predicate Valid()
      reads this`clients, this`connectedIPs
    {
      DistinctIds(clients) && connectedIPs == IpsOf(clients)
    }

    constructor ()
      ensures Valid() && clients == [] && connectedIPs == {} && outbox == []
    {
      clients, connectedIPs, outbox := [], {}, [];
    }

    /** A new connection `id` from `ip`: the address is noted, the connection joins the
        set, and `greeting` is sent to it at once, without a ready-state check. */
    method Register(id: nat, ip: string, greeting: OutMsg)
      requires Valid() && id !in Ids(clients)
      modifies this
      ensures Valid()
      ensures clients == old(clients) + [Session(id, ip, Open)]
      ensures connectedIPs == old(connectedIPs) + {ip}
      ensures outbox == old(outbox) + [Delivery(id, greeting)]
    {
      if ip !in connectedIPs {
        connectedIPs := connectedIPs + {ip};
      }
      clients := clients + [Session(id, ip, Open)];
      outbox := outbox + [Delivery(id, greeting)];
    }

    /** The close handler of connection `id`: it leaves the set, and its address
        leaves `connectedIPs` only when no remaining connection shares it. */
    method Unregister(id: nat)
      requires Valid() && id in Ids(clients)
      modifies this
      ensures Valid()
      ensures clients == Without(old(clients), id)
      ensures var ip := IpOf(old(clients), id);
        connectedIPs == if exists c :: c in clients && c.ip == ip
                        then old(connectedIPs) else old(connectedIPs) - {ip}
      ensures outbox == old(outbox)
    {
      var closedIp := IpOf(clients, id);
      clients := Without(clients, id);
      var stillActive := false;
      var i := 0;
      while i < |clients|
        invariant 0 <= i <= |clients|
        invariant !stillActive
        invariant forall j :: 0 <= j < i ==> clients[j].ip != closedIp
      {
        if clients[i].ip == closedIp {
          stillActive := true;
          break;
        }
        i := i + 1;
      }
      assert stillActive <==> exists c :: c in clients && c.ip == closedIp;
      if !stillActive {
        connectedIPs := connectedIPs - {closedIp};
      }
    }

    /** `broadcast(msg)`: one frame to each OPEN connection, in set order; connections
        in any other state are skipped, not queued. */
    method Broadcast(msg: OutMsg)
      modifies this`outbox
      ensures outbox == old(outbox) + OpenDeliveries(clients, msg)
    {
      var i := 0;
      while i < |clients|
        invariant 0 <= i <= |clients|
        invariant outbox == old(outbox) + OpenDeliveries(clients[..i], msg)
      {
        assert clients[..i + 1][..i] == clients[..i];
        if clients[i].state == Open {
          outbox := outbox + [Delivery(clients[i].id, msg)];
        }
        i := i + 1;
      }
      assert clients[..i] == clients;
    }

    /** The transport moved connection `id` to ready state `st`. */
    method SetReadyState(id: nat, st: ReadyState)
      requires Valid()
      modifies this`clients
      ensures Valid()
      ensures clients == WithState(old(clients), id, st)
    {
      WithStateKeeps(clients, id, st);
      clients := WithState(clients, id, st);
    }
  }
}

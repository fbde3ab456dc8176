// server/notify-relay.js: commands sent to connected daemons and settled by an
// acknowledgement, a timeout, a send error, a closed socket or a drain. Each
// asynchronous handler is a step; an await ends one step and begins another.
module NotifyRelay {
  import opened Text
  import opened Wrappers

  type ConnectionId = nat
  type CommandId = nat

  // readyState of a daemon's socket, and the relay its token is bound to.
  datatype Socket = Socket(relayId: string, isOpen: bool)

  // An entry of pendingAcks, in insertion order.
  datatype Pending = Pending(id: CommandId, connection: ConnectionId)

  // A call of a command's resolve, with an acknowledgement or with null.
  datatype Settlement = Settlement(id: CommandId, acknowledged: bool)

  datatype Relay = Relay(
    sockets: map<ConnectionId, Socket>,
    connections: map<string, ConnectionId>,
    pendingAcks: seq<Pending>,
    timers: set<CommandId>,                      // timeouts set and neither fired nor cleared
    starting: map<CommandId, ConnectionId>,      // calls awaiting the start audit
    acking: map<CommandId, ConnectionId>,        // ack handlers awaiting their audit
    draining: bool,
    sentOn: map<CommandId, ConnectionId>,        // history: the connection each command was sent on
    acksReceived: set<Pending>,                  // history: the acks that arrived, by connection
    resolved: seq<Settlement>)                   // history: the calls of resolve

  function FindPending(pending: seq<Pending>, id: CommandId): (i: nat)
    ensures i <= |pending| && (i < |pending| ==> pending[i].id == id)
  {
    if pending == [] || pending[0].id == id then 0 else 1 + FindPending(pending[1..], id)
  }

  function Delete(pending: seq<Pending>, id: CommandId): seq<Pending> {
    if pending == [] then []
    else (if pending[0].id == id then [] else [pending[0]]) + Delete(pending[1..], id)
  }

  // connectionFor
  function ConnectionFor(r: Relay, relayId: string): Option<ConnectionId> {
    var key := Trim(relayId);
    if key in r.connections && r.connections[key] in r.sockets && r.sockets[r.connections[key]].isOpen
    then Some(r.connections[key]) else None
  }

  // handleUpgrade for an authorized token
  function Upgrade(r: Relay, relayId: string, connection: ConnectionId): Relay {
    if r.draining then r
    else
      var closed :=
        if relayId in r.connections && r.connections[relayId] in r.sockets then
          r.sockets[r.connections[relayId] := r.sockets[r.connections[relayId]].(isOpen := false)]
        else r.sockets;
      r.(sockets := closed[connection := Socket(relayId, true)], connections := r.connections[relayId := connection])
  }

  // The first part of deliverNotifyRequest, listNotifyTargets or
  // revokeNotifyGrants: look the connection up, then await the start audit.
  function Begin(r: Relay, relayId: string, id: CommandId): Relay {
    match ConnectionFor(r, relayId)
    case None => r
    case Some(connection) => r.(starting := r.starting[id := connection])
  }

  // Their second part: set the timer, register the command and send it.
  function Register(r: Relay, id: CommandId): Relay {
    if id !in r.starting then r
    else
      var connection := r.starting[id];
      r.(starting := r.starting - {id},
         timers := r.timers + {id},
         pendingAcks := r.pendingAcks + [Pending(id, connection)],
         sentOn := r.sentOn[id := connection])
  }

  function Resolve(r: Relay, id: CommandId, acknowledged: bool): Relay {
    r.(resolved := r.resolved + [Settlement(id, acknowledged)])
  }

  // clearTimeout, pendingAcks.delete and resolve(null)
  function Abandon(r: Relay, id: CommandId): Relay {
    Resolve(r.(timers := r.timers - {id}, pendingAcks := Delete(r.pendingAcks, id)), id, false)
  }

  function TimeOut(r: Relay, id: CommandId): Relay {
    if id !in r.timers then r else Abandon(r, id)
  }

  function SendFailed(r: Relay, id: CommandId): Relay {
    if FindPending(r.pendingAcks, id) == |r.pendingAcks| then r else Abandon(r, id)
  }

  // handleMessage for an acknowledgement, up to the audit
  function ReceiveAck(r: Relay, connection: ConnectionId, id: CommandId): Relay {
    var at := FindPending(r.pendingAcks, id);
    var heard := r.(acksReceived := r.acksReceived + {Pending(id, connection)});
    if at == |r.pendingAcks| || r.pendingAcks[at].connection != connection then heard
    else
      heard.(timers := r.timers - {id}, pendingAcks := Delete(r.pendingAcks, id), acking := r.acking[id := connection])
  }

  // handleMessage after the audit
  function FinishAck(r: Relay, id: CommandId): Relay {
    if id !in r.acking then r else Resolve(r.(acking := r.acking - {id}), id, true)
  }

  function AbandonAll(r: Relay, pending: seq<Pending>, connection: Option<ConnectionId>): Relay {
    if pending == [] then r
    else
      var p := pending[|pending| - 1];
      var before := AbandonAll(r, pending[..|pending| - 1], connection);
      if connection.Some? && p.connection != connection.value then before else Abandon(before, p.id)
  }

  // The socket's close handler
  function Close(r: Relay, connection: ConnectionId): Relay {
    if connection !in r.sockets then r
    else
      var s := r.sockets[connection];
      var dropped := r.(sockets := r.sockets[connection := s.(isOpen := false)],
                        connections := if s.relayId in r.connections && r.connections[s.relayId] == connection
                                       then r.connections - {s.relayId} else r.connections);
      AbandonAll(dropped, r.pendingAcks, Some(connection))
  }

  function CloseSockets(sockets: map<ConnectionId, Socket>, closing: set<ConnectionId>): map<ConnectionId, Socket> {
    map c | c in sockets :: if c in closing then sockets[c].(isOpen := false) else sockets[c]
  }

  function BeginDrain(r: Relay): Relay {
    AbandonAll(r.(draining := true, sockets := CloseSockets(r.sockets, r.connections.Values), connections := map[]),
               r.pendingAcks, None)
  }

  // ------------------------------------------------------------- the object

  class NotifyRelay {
    var sockets: map<ConnectionId, Socket>
    var connections: map<string, ConnectionId>
    var pendingAcks: seq<Pending>
    var timers: set<CommandId>
    var starting: map<CommandId, ConnectionId>
    var acking: map<CommandId, ConnectionId>
    var draining: bool
    ghost var sentOn: map<CommandId, ConnectionId>
    ghost var acksReceived: set<Pending>
    ghost var resolved: seq<Settlement>

    ghost function State(): Relay
      reads this
    {
      Relay(sockets, connections, pendingAcks, timers, starting, acking, draining, sentOn, acksReceived, resolved)
    }

    constructor ()
      ensures State() == Relay(map[], map[], [], {}, map[], map[], false, map[], {}, [])
    {
      sockets, connections, pendingAcks, timers, starting, acking := map[], map[], [], {}, map[], map[];
      draining, sentOn, acksReceived, resolved := false, map[], {}, [];
    }

    method HandleUpgrade(relayId: string, connection: ConnectionId) returns (accepted: bool)
      modifies this
      ensures State() == Upgrade(old(State()), relayId, connection) && accepted == !old(draining)
    {
      if draining { return false; }
      if relayId in connections && connections[relayId] in sockets {
        var previous := connections[relayId];
        sockets := sockets[previous := sockets[previous].(isOpen := false)];
      }
      sockets := sockets[connection := Socket(relayId, true)];
      connections := connections[relayId := connection];
      return true;
    }

    method BeginCommand(relayId: string, id: CommandId) returns (available: bool)
      modifies this`starting
      ensures State() == Begin(old(State()), relayId, id)
      ensures available <==> ConnectionFor(old(State()), relayId).Some?
    {
      var key := Trim(relayId);
      if key !in connections { return false; }
      var connection := connections[key];
      if connection !in sockets || !sockets[connection].isOpen { return false; }
      starting := starting[id := connection];
      return true;
    }

    method RegisterCommand(id: CommandId)
      requires id in starting
      modifies this
      ensures State() == Register(old(State()), id)
    {
      var connection := starting[id];
      starting := starting - {id};
      timers := timers + {id};
      pendingAcks := pendingAcks + [Pending(id, connection)];
      sentOn := sentOn[id := connection];
    }

    method AbandonCommand(id: CommandId)
      modifies this`timers, this`pendingAcks, this`resolved
      ensures State() == Abandon(old(State()), id)
    {
      timers := timers - {id};
      pendingAcks := Delete(pendingAcks, id);
      resolved := resolved + [Settlement(id, false)];
    }

    method HandleTimeout(id: CommandId)
      requires id in timers
      modifies this
      ensures State() == TimeOut(old(State()), id)
    {
      AbandonCommand(id);
    }

    method HandleSendError(id: CommandId)
      modifies this
      ensures State() == SendFailed(old(State()), id)
    {
      if FindPending(pendingAcks, id) == |pendingAcks| { return; }
      AbandonCommand(id);
    }

    method HandleAck(connection: ConnectionId, id: CommandId) returns (taken: bool)
      modifies this
      ensures State() == ReceiveAck(old(State()), connection, id)
    {
      acksReceived := acksReceived + {Pending(id, connection)};
      var at := FindPending(pendingAcks, id);
      if at == |pendingAcks| || pendingAcks[at].connection != connection { return false; }
      timers := timers - {id};
      pendingAcks := Delete(pendingAcks, id);
      acking := acking[id := connection];
      return true;
    }

    method FinishAckHandler(id: CommandId)
      requires id in acking
      modifies this
      ensures State() == FinishAck(old(State()), id)
    {
      acking := acking - {id};
      resolved := resolved + [Settlement(id, true)];
    }

    method HandleClose(connection: ConnectionId)
      requires connection in sockets
      modifies this
      ensures State() == Close(old(State()), connection)
    {
      var s := sockets[connection];
      sockets := sockets[connection := s.(isOpen := false)];
      if s.relayId in connections && connections[s.relayId] == connection {
        connections := connections - {s.relayId};
      }
      var listed := pendingAcks;
      ghost var dropped := State();
      for i := 0 to |listed|
        invariant State() == AbandonAll(dropped, listed[..i], Some(connection))
      {
        assert listed[..i + 1][..i] == listed[..i];
        if listed[i].connection != connection { continue; }
        AbandonCommand(listed[i].id);
      }
      assert listed[..|listed|] == listed;
    }

    method Drain()
      modifies this
      ensures State() == BeginDrain(old(State()))
    {
      draining := true;
      sockets := CloseSockets(sockets, connections.Values);
      connections := map[];
      var listed := pendingAcks;
      ghost var cleared := State();
      for i := 0 to |listed|
        invariant State() == AbandonAll(cleared, listed[..i], None)
      {
        assert listed[..i + 1][..i] == listed[..i];
        AbandonCommand(listed[i].id);
      }
      assert listed[..|listed|] == listed;
    }
  }
}

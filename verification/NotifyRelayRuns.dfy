// What every interleaving of upgrades, commands, acknowledgements, timeouts,
// send errors, closed sockets and a drain keeps of the relay's commands.
module NotifyRelayRuns {
  import opened Text
  import opened Wrappers
  import opened NotifyRelay

  datatype Event =
    | Connected(relayId: string, connection: ConnectionId)
    | Called(relayId: string, id: CommandId)
    | StartAudited(id: CommandId)
    | TimerFired(id: CommandId)
    | SendErrored(id: CommandId)
    | AckArrived(connection: ConnectionId, id: CommandId)
    | AckAudited(id: CommandId)
    | SocketClosed(connection: ConnectionId)
    | DrainBegan

  function Next(r: Relay, e: Event): Relay {
    match e
    case Connected(relayId, connection) => Upgrade(r, relayId, connection)
    case Called(relayId, id) => Begin(r, relayId, id)
    case StartAudited(id) => Register(r, id)
    case TimerFired(id) => TimeOut(r, id)
    case SendErrored(id) => SendFailed(r, id)
    case AckArrived(connection, id) => ReceiveAck(r, connection, id)
    case AckAudited(id) => FinishAck(r, id)
    case SocketClosed(connection) => Close(r, connection)
    case DrainBegan => BeginDrain(r)
  }

  const EMPTY := Relay(map[], map[], [], {}, map[], map[], false, map[], {}, [])

  function Run(es: seq<Event>): Relay {
    if es == [] then EMPTY else Next(Run(es[..|es| - 1]), es[|es| - 1])
  }

  // Connections are new objects and command ids are new.
  ghost predicate FreshNames(r: Relay, e: Event) {
    match e
    case Connected(_, connection) => connection !in r.sockets
    case Called(_, id) => id !in r.starting && id !in r.sentOn
    case _ => true
  }

  ghost predicate FreshRun(es: seq<Event>) {
    es == [] || (FreshRun(es[..|es| - 1]) && FreshNames(Run(es[..|es| - 1]), es[|es| - 1]))
  }

  // ---------------------------------------------------------- the invariant

  ghost predicate Settled(r: Relay, id: CommandId) {
    exists s :: s in r.resolved && s.id == id
  }

  ghost predicate Listed(pending: seq<Pending>, id: CommandId) {
    exists p :: p in pending && p.id == id
  }

  ghost predicate DistinctPending(pending: seq<Pending>) {
    forall i, j | 0 <= i < j < |pending| :: pending[i].id != pending[j].id
  }

  ghost predicate DistinctSettlements(resolved: seq<Settlement>) {
    forall i, j | 0 <= i < j < |resolved| :: resolved[i].id != resolved[j].id
  }

  // A registered command is in exactly one place: pending with a live timer,
  // held by an ack handler, or settled.
  ghost predicate CommandInv(r: Relay) {
    && DistinctPending(r.pendingAcks)
    && (forall id :: id in r.timers <==> Listed(r.pendingAcks, id))
    && (forall p | p in r.pendingAcks ::
          p.id in r.sentOn && r.sentOn[p.id] == p.connection && p.id !in r.acking && !Settled(r, p.id))
    && (forall id | id in r.acking ::
          id in r.sentOn && r.sentOn[id] == r.acking[id] && Pending(id, r.acking[id]) in r.acksReceived &&
              !Settled(r, id))
    && (forall id | id in r.sentOn :: id in r.timers || id in r.acking || Settled(r, id))
    && (forall id | id in r.starting :: id !in r.sentOn)
  }

  ghost predicate SettlementInv(r: Relay) {
    && DistinctSettlements(r.resolved)
    && (forall s | s in r.resolved ::
          s.id in r.sentOn && (s.acknowledged ==> Pending(s.id, r.sentOn[s.id]) in r.acksReceived))
  }

  ghost predicate ConnectionInv(r: Relay) {
    && (forall relayId | relayId in r.connections ::
          r.connections[relayId] in r.sockets && r.sockets[r.connections[relayId]].relayId == relayId)
    && (r.draining ==> r.connections == map[])
  }

  ghost predicate Inv(r: Relay) {
    CommandInv(r) && SettlementInv(r) && ConnectionInv(r)
  }

  // --------------------------------------------------------------- one step

  lemma {:induction false} DeleteSpec(pending: seq<Pending>, id: CommandId)
    ensures forall p :: p in Delete(pending, id) <==> p in pending && p.id != id
    ensures DistinctPending(pending) ==> DistinctPending(Delete(pending, id))
  {
    if pending != [] {
      DeleteSpec(pending[1..], id);
      if DistinctPending(pending) {
        var d := Delete(pending[1..], id);
        assert forall p | p in pending[1..] :: p.id != pending[0].id;
        assert forall k | 0 <= k < |d| :: d[k] in d;
      }
    }
  }

  lemma {:induction false} FindPendingSpec(pending: seq<Pending>, id: CommandId)
    ensures FindPending(pending, id) < |pending| <==> Listed(pending, id)
    ensures FindPending(pending, id) < |pending| ==> pending[FindPending(pending, id)] in pending
  {
    if pending != [] {
      FindPendingSpec(pending[1..], id);
      assert pending == [pending[0]] + pending[1..];
      if pending[0].id == id { assert pending[0] in pending; }
    }
  }

  lemma SettleOne(r: Relay, next: Relay, s: Settlement)
    requires SettlementInv(r) && !Settled(r, s.id) && s.id in r.sentOn
    requires s.acknowledged ==> Pending(s.id, r.sentOn[s.id]) in r.acksReceived
    requires next.resolved == r.resolved + [s] && next.sentOn == r.sentOn && next.acksReceived == r.acksReceived
    ensures SettlementInv(next)
    ensures forall id :: Settled(next, id) <==> Settled(r, id) || id == s.id
  {
    forall i | 0 <= i < |r.resolved| ensures r.resolved[i].id != s.id { assert r.resolved[i] in r.resolved; }
    forall id ensures Settled(next, id) <==> Settled(r, id) || id == s.id {
      if Settled(r, id) {
        var x :| x in r.resolved && x.id == id;
        assert x in next.resolved;
      }
      if id == s.id { assert s in next.resolved; }
    }
  }

  lemma AbandonKeeps(r: Relay, id: CommandId)
    requires Inv(r) && id in r.timers
    ensures Inv(Abandon(r, id)) && Settled(Abandon(r, id), id)
  {
    var next := Abandon(r, id);
    DeleteSpec(r.pendingAcks, id);
    SettleOne(r, next, Settlement(id, false));
    hide Settled, DistinctPending, DistinctSettlements, SettlementInv, Delete;
    assert CommandInv(next);
  }

  ghost predicate SameElsewhere(a: Relay, b: Relay) {
    && a.sockets == b.sockets && a.connections == b.connections && a.draining == b.draining
    && a.starting == b.starting && a.acking == b.acking && a.sentOn == b.sentOn && a.acksReceived == b.acksReceived
  }

  predicate Hit(p: Pending, connection: Option<ConnectionId>) {
    connection.None? || p.connection == connection.value
  }

  lemma {:induction false} AbandonAllKeeps(r: Relay, pending: seq<Pending>, connection: Option<ConnectionId>)
    requires Inv(r) && DistinctPending(pending) && forall p | p in pending :: p in r.pendingAcks
    ensures var next := AbandonAll(r, pending, connection);
            && Inv(next) && SameElsewhere(r, next)
            && (forall p :: p in next.pendingAcks <==> p in r.pendingAcks && !(p in pending && Hit(p, connection)))
            && (forall id :: Settled(r, id) ==> Settled(next, id))
            && (forall p | p in pending && Hit(p, connection) :: Settled(next, p.id))
    decreases |pending|
  {
    if pending != [] {
      var n := |pending| - 1;
      var init, p := pending[..n], pending[n];
      assert p in pending && pending == init + [p];
      AbandonAllKeeps(r, init, connection);
      var m := AbandonAll(r, init, connection);
      forall q | q in init ensures q.id != p.id {
        var i :| 0 <= i < n && init[i] == q;
        assert pending[i] == q;
      }
      assert p in m.pendingAcks;
      if Hit(p, connection) {
        hide CommandInv, SettlementInv, ConnectionInv, Delete;
        assert p.id in m.timers by { assert CommandInv(m); TimerOf(m, p); }
        AbandonKeeps(m, p.id);
        DeleteSpec(m.pendingAcks, p.id);
        SettledStays(m, p.id);
        DistinctOf(r);
        OthersDiffer(r.pendingAcks, p);
      }
    }
  }

  lemma TimerOf(r: Relay, p: Pending)
    requires CommandInv(r) && p in r.pendingAcks
    ensures p.id in r.timers
  {
  }

  lemma SettledStays(r: Relay, id: CommandId)
    ensures forall x :: Settled(r, x) ==> Settled(Abandon(r, id), x)
  {
    forall x | Settled(r, x) ensures Settled(Abandon(r, id), x) {
      var s :| s in r.resolved && s.id == x;
      assert s in Abandon(r, id).resolved;
    }
  }

  lemma OthersDiffer(pending: seq<Pending>, p: Pending)
    requires DistinctPending(pending) && p in pending
    ensures forall q | q in pending && q.id == p.id :: q == p
  {
  }

  lemma RegisterKeeps(r: Relay, id: CommandId)
    requires Inv(r) && id in r.starting
    ensures Inv(Register(r, id))
  {
    var next, p := Register(r, id), Pending(id, r.starting[id]);
    assert forall x :: Settled(next, x) <==> Settled(r, x);
    assert forall q | q in r.pendingAcks :: q.id in r.sentOn;
    PushPending(r.pendingAcks, p);
    hide Settled, DistinctPending, DistinctSettlements;
    assert CommandInv(next);
  }

  lemma PushPending(pending: seq<Pending>, p: Pending)
    requires DistinctPending(pending) && forall q | q in pending :: q.id != p.id
    ensures DistinctPending(pending + [p])
    ensures forall id :: Listed(pending + [p], id) <==> id == p.id || Listed(pending, id)
  {
    assert forall i | 0 <= i < |pending| :: pending[i] in pending;
    forall id ensures Listed(pending + [p], id) <==> id == p.id || Listed(pending, id) {
      if id == p.id { assert p in pending + [p]; }
      if q :| q in pending && q.id == id { assert q in pending + [p]; }
    }
  }

  lemma HearKeeps(r: Relay, p: Pending)
    requires Inv(r)
    ensures Inv(r.(acksReceived := r.acksReceived + {p}))
    ensures forall x :: Settled(r.(acksReceived := r.acksReceived + {p}), x) <==> Settled(r, x)
  {
    assert forall x :: Settled(r.(acksReceived := r.acksReceived + {p}), x) <==> Settled(r, x);
    hide Settled, DistinctPending, DistinctSettlements;
  }

  // Taking a pending command over into its ack handler.
  lemma TakeKeeps(r: Relay, p: Pending)
    requires Inv(r) && p in r.pendingAcks && p in r.acksReceived
    ensures Inv(r.(timers := r.timers - {p.id}, pendingAcks := Delete(r.pendingAcks, p.id),
                   acking := r.acking[p.id := p.connection]))
  {
    var next := r.(timers := r.timers - {p.id}, pendingAcks := Delete(r.pendingAcks, p.id),
                   acking := r.acking[p.id := p.connection]);
    DeleteSpec(r.pendingAcks, p.id);
    assert forall x :: Settled(next, x) <==> Settled(r, x);
    hide Settled, DistinctPending, DistinctSettlements, Delete;
    forall id ensures id in next.timers <==> Listed(next.pendingAcks, id) {
      if id in next.timers {
        var q :| q in r.pendingAcks && q.id == id;
        assert q in next.pendingAcks;
      }
    }
    assert CommandInv(next);
  }

  lemma AckKeeps(r: Relay, connection: ConnectionId, id: CommandId)
    requires Inv(r)
    ensures Inv(ReceiveAck(r, connection, id))
  {
    var at := FindPending(r.pendingAcks, id);
    FindPendingSpec(r.pendingAcks, id);
    hide CommandInv, SettlementInv, ConnectionInv, Settled, Delete;
    HearKeeps(r, Pending(id, connection));
    if at < |r.pendingAcks| && r.pendingAcks[at].connection == connection {
      TakeKeeps(r.(acksReceived := r.acksReceived + {Pending(id, connection)}), r.pendingAcks[at]);
    }
  }

  lemma FinishAckKeeps(r: Relay, id: CommandId)
    requires Inv(r) && id in r.acking
    ensures Inv(FinishAck(r, id)) && Settled(FinishAck(r, id), id)
  {
    var next := FinishAck(r, id);
    SettleOne(r, next, Settlement(id, true));
    hide Settled, DistinctPending, DistinctSettlements, SettlementInv;
    assert CommandInv(next);
  }

  lemma SocketsOnly(r: Relay, next: Relay)
    requires Inv(r) && ConnectionInv(next)
    requires next == r.(sockets := next.sockets, connections := next.connections, draining := next.draining)
    ensures Inv(next)
  {
    assert forall x :: Settled(next, x) <==> Settled(r, x);
    hide Settled, DistinctPending, DistinctSettlements;
  }

  lemma UpgradeKeeps(r: Relay, relayId: string, connection: ConnectionId)
    requires Inv(r) && connection !in r.sockets
    ensures Inv(Upgrade(r, relayId, connection))
  {
    hide CommandInv, SettlementInv;
    SocketsOnly(r, Upgrade(r, relayId, connection));
  }

  lemma CloseKeeps(r: Relay, connection: ConnectionId)
    requires Inv(r) && connection in r.sockets
    ensures Inv(Close(r, connection))
    ensures forall p | p in Close(r, connection).pendingAcks :: p.connection != connection
    ensures forall p | p in r.pendingAcks && p.connection == connection :: Settled(Close(r, connection), p.id)
    ensures forall relayId | relayId in r.connections && r.connections[relayId] != connection ::
              relayId in Close(r, connection).connections &&
                  Close(r, connection).connections[relayId] == r.connections[relayId]
  {
    var s := r.sockets[connection];
    var dropped := r.(sockets := r.sockets[connection := s.(isOpen := false)],
                      connections := if s.relayId in r.connections && r.connections[s.relayId] == connection
                                     then r.connections - {s.relayId} else r.connections);
    SocketsOnly(r, dropped);
    hide CommandInv, SettlementInv, Settled;
    assert DistinctPending(r.pendingAcks) by { assert CommandInv(r); DistinctOf(r); }
    AbandonAllKeeps(dropped, r.pendingAcks, Some(connection));
  }

  lemma DistinctOf(r: Relay)
    requires CommandInv(r)
    ensures DistinctPending(r.pendingAcks)
  {
  }

  lemma SomePending(pending: seq<Pending>)
    ensures pending != [] ==> exists p :: p in pending
  {
    if pending != [] { assert pending[0] in pending; }
  }

  lemma DrainKeeps(r: Relay)
    requires Inv(r)
    ensures Inv(BeginDrain(r)) && BeginDrain(r).pendingAcks == [] && BeginDrain(r).connections == map[]
    ensures forall p | p in r.pendingAcks :: Settled(BeginDrain(r), p.id)
  {
    var cleared := r.(draining := true, sockets := CloseSockets(r.sockets, r.connections.Values), connections := map[]);
    SocketsOnly(r, cleared);
    DistinctOf(r);
    hide CommandInv, SettlementInv, Settled;
    AbandonAllKeeps(cleared, r.pendingAcks, None);
    var next := BeginDrain(r);
    SomePending(next.pendingAcks);
  }

  lemma NextKeeps(r: Relay, e: Event)
    requires Inv(r) && FreshNames(r, e)
    ensures Inv(Next(r, e))
  {
    match e
    case Connected(relayId, connection) => UpgradeKeeps(r, relayId, connection);
    case Called(relayId, id) => BeginKeeps(r, relayId, id);
    case StartAudited(id) => if id in r.starting { RegisterKeeps(r, id); }
    case TimerFired(id) => if id in r.timers { AbandonKeeps(r, id); }
    case SendErrored(id) => FindPendingSpec(r.pendingAcks, id); if SendFailed(r, id) != r { AbandonKeeps(r, id); }
    case AckArrived(connection, id) => AckKeeps(r, connection, id);
    case AckAudited(id) => if id in r.acking { FinishAckKeeps(r, id); }
    case SocketClosed(connection) => if connection in r.sockets { CloseKeeps(r, connection); }
    case DrainBegan => DrainKeeps(r);
  }

  lemma BeginKeeps(r: Relay, relayId: string, id: CommandId)
    requires Inv(r) && id !in r.sentOn
    ensures Inv(Begin(r, relayId, id))
  {
    assert forall x :: Settled(Begin(r, relayId, id), x) <==> Settled(r, x);
    hide Settled, DistinctPending, DistinctSettlements;
  }

  lemma {:induction false} RunKeeps(es: seq<Event>)
    requires FreshRun(es)
    ensures Inv(Run(es))
  {
    if es == [] {
      assert Inv(EMPTY);
    } else {
      hide Inv, FreshNames, Next;
      RunKeeps(es[..|es| - 1]);
      NextKeeps(Run(es[..|es| - 1]), es[|es| - 1]);
    }
  }

  // ---------------------------------------------------------- the guarantees

  // Every command settles at most once.
  lemma SettledAtMostOnce(es: seq<Event>)
    requires FreshRun(es)
    ensures forall i, j | 0 <= i < j < |Run(es).resolved| :: Run(es).resolved[i].id != Run(es).resolved[j].id
  {
    RunKeeps(es);
    hide CommandInv, ConnectionInv, Run;
  }

  // Until it settles a command has a live timer beside its entry, or is held by
  // the handler of its acknowledgement; either of them alone settles it.
  lemma HeldUntilSettled(es: seq<Event>, id: CommandId)
    requires FreshRun(es) && id in Run(es).sentOn && !Settled(Run(es), id)
    ensures var r := Run(es);
            || (id in r.timers && Pending(id, r.sentOn[id]) in r.pendingAcks && Settled(TimeOut(r, id), id))
            || (id in r.acking && r.acking[id] == r.sentOn[id] && Settled(FinishAck(r, id), id))
  {
    RunKeeps(es);
    var r := Run(es);
    if id in r.timers {
      var p :| p in r.pendingAcks && p.id == id;
      assert p == Pending(id, r.sentOn[id]);
      AbandonKeeps(r, id);
    } else {
      FinishAckKeeps(r, id);
    }
  }

  // A command is reported acknowledged only if an acknowledgement with its id
  // arrived on the connection that the command was sent on.
  lemma AcknowledgedOnOwnConnection(es: seq<Event>, s: Settlement)
    requires FreshRun(es) && s in Run(es).resolved && s.acknowledged
    ensures s.id in Run(es).sentOn && Pending(s.id, Run(es).sentOn[s.id]) in Run(es).acksReceived
  {
    RunKeeps(es);
    hide CommandInv, ConnectionInv, Run;
  }

  lemma {:induction false} AcksArrived(es: seq<Event>, p: Pending)
    requires p in Run(es).acksReceived
    ensures AckArrived(p.connection, p.id) in es
    decreases |es|
  {
    var init, e := es[..|es| - 1], es[|es| - 1];
    assert es == init + [e];
    var r := Run(init);
    if p in r.acksReceived {
      AcksArrived(init, p);
    } else {
      AbandonAllHearsNothing(r, e);
    }
  }

  lemma AbandonAllHearsNothing(r: Relay, e: Event)
    ensures Next(r, e).acksReceived == r.acksReceived + if e.AckArrived? then {Pending(e.id, e.connection)} else {}
  {
    match e
    case SocketClosed(connection) =>
      if connection in r.sockets {
        var s := r.sockets[connection];
        AbandonAllSame(r.(sockets := r.sockets[connection := s.(isOpen := false)],
                          connections := if s.relayId in r.connections && r.connections[s.relayId] == connection
                                         then r.connections - {s.relayId}
                                             else r.connections), r.pendingAcks, Some(connection));
      }
    case DrainBegan =>
      AbandonAllSame(r.(draining := true, sockets := CloseSockets(r.sockets, r.connections.Values),
                        connections := map[]), r.pendingAcks, None);
    case _ =>
  }

  lemma {:induction false} AbandonAllSame(r: Relay, pending: seq<Pending>, connection: Option<ConnectionId>)
    ensures AbandonAll(r, pending, connection).acksReceived == r.acksReceived
    decreases |pending|
  {
    if pending != [] { AbandonAllSame(r, pending[..|pending| - 1], connection); }
  }

  // In a run, a command reported acknowledged was acknowledged by a message
  // that is in the run, on the connection the command was sent on.
  lemma AcknowledgementIsInRun(es: seq<Event>, s: Settlement)
    requires FreshRun(es) && s in Run(es).resolved && s.acknowledged
    ensures s.id in Run(es).sentOn && AckArrived(Run(es).sentOn[s.id], s.id) in es
  {
    AcknowledgedOnOwnConnection(es, s);
    AcksArrived(es, Pending(s.id, Run(es).sentOn[s.id]));
  }

  // Closing a socket settles everything pending on it and never evicts the
  // connection that replaced it.
  lemma CloseSparesReplacement(es: seq<Event>, connection: ConnectionId, relayId: string)
    requires FreshRun(es) && connection in Run(es).sockets
    ensures var (r, next) := (Run(es), Close(Run(es), connection));
            && (forall p | p in next.pendingAcks :: p.connection != connection)
            && (forall p | p in r.pendingAcks && p.connection == connection :: Settled(next, p.id))
            && (relayId in r.connections && r.connections[relayId] != connection ==>
                  relayId in next.connections && next.connections[relayId] == r.connections[relayId])
            && (relayId in r.connections && r.connections[relayId] == connection ==> relayId !in next.connections)
  {
    RunKeeps(es);
    hide CommandInv, SettlementInv, Settled, Run;
    CloseKeeps(Run(es), connection);
    var r := Run(es);
    if relayId in r.connections && r.connections[relayId] == connection { CloseEvicts(r, connection, relayId); }
  }

  lemma CloseEvicts(r: Relay, connection: ConnectionId, relayId: string)
    requires Inv(r) && connection in r.sockets && relayId in r.connections && r.connections[relayId] == connection
    ensures relayId !in Close(r, connection).connections
  {
    var s := r.sockets[connection];
    var dropped := r.(sockets := r.sockets[connection := s.(isOpen := false)],
                      connections := r.connections - {s.relayId});
    SocketsOnly(r, dropped);
    DistinctOf(r);
    hide CommandInv, SettlementInv, Settled;
    AbandonAllKeeps(dropped, r.pendingAcks, Some(connection));
  }

  // Once a drain has begun no connection is ever held again, so every later
  // call finds its daemon offline.
  lemma DrainedForEver(es: seq<Event>, relayId: string)
    requires FreshRun(es) && DrainBegan in es
    ensures Run(es).draining && Run(es).connections == map[] && ConnectionFor(Run(es), relayId) == None
  {
    RunKeeps(es);
    DrainSticks(es);
    hide CommandInv, SettlementInv, Run;
  }

  lemma {:induction false} DrainSticks(es: seq<Event>)
    requires FreshRun(es) && DrainBegan in es
    ensures Run(es).draining
    decreases |es|
  {
    var init, e := es[..|es| - 1], es[|es| - 1];
    assert es == init + [e];
    RunKeeps(init);
    if DrainBegan in init { DrainSticks(init); }
    DrainingStep(Run(init), e);
  }

  lemma UpgradeDraining(r: Relay, relayId: string, connection: ConnectionId)
    ensures Upgrade(r, relayId, connection).draining == r.draining
  {
  }

  lemma AckDraining(r: Relay, connection: ConnectionId, id: CommandId)
    ensures ReceiveAck(r, connection, id).draining == r.draining
  {
  }

  lemma DrainingStep(r: Relay, e: Event)
    requires Inv(r)
    ensures Next(r, e).draining == (r.draining || e.DrainBegan?)
  {
    DistinctOf(r);
    hide CommandInv, SettlementInv, Settled, Upgrade, ReceiveAck;
    match e
    case Connected(relayId, connection) => UpgradeDraining(r, relayId, connection);
    case AckArrived(connection, id) => AckDraining(r, connection, id);
    case SocketClosed(connection) =>
      if connection in r.sockets {
        var s := r.sockets[connection];
        var dropped := r.(sockets := r.sockets[connection := s.(isOpen := false)],
                          connections := if s.relayId in r.connections && r.connections[s.relayId] == connection
                                         then r.connections - {s.relayId} else r.connections);
        SocketsOnly(r, dropped);
        AbandonAllKeeps(dropped, r.pendingAcks, Some(connection));
      }
    case DrainBegan =>
      var cleared := r.(draining := true, sockets := CloseSockets(r.sockets, r.connections.Values),
                        connections := map[]);
      SocketsOnly(r, cleared);
      AbandonAllKeeps(cleared, r.pendingAcks, None);
    case _ =>
  }

  // Every command that is pending, or still may be, has one of these ids.
  predicate PendingAmong(r: Relay, ids: set<CommandId>) {
    r.starting.Keys <= ids && forall p | p in r.pendingAcks :: p.id in ids
  }

  lemma {:induction false} AbandonAllAmong(r: Relay, pending: seq<Pending>, connection: Option<ConnectionId>,
                                           ids: set<CommandId>)
    requires PendingAmong(r, ids)
    ensures PendingAmong(AbandonAll(r, pending, connection), ids)
    decreases |pending|
  {
    if pending != [] {
      var p := pending[|pending| - 1];
      var before := AbandonAll(r, pending[..|pending| - 1], connection);
      AbandonAllAmong(r, pending[..|pending| - 1], connection, ids);
      DeleteSpec(before.pendingAcks, p.id);
    }
  }

  lemma CloseAmong(r: Relay, connection: ConnectionId, ids: set<CommandId>)
    requires PendingAmong(r, ids)
    ensures PendingAmong(Close(r, connection), ids)
  {
    hide PendingAmong, AbandonAll;
    if connection in r.sockets {
      var s := r.sockets[connection];
      var dropped := r.(sockets := r.sockets[connection := s.(isOpen := false)],
                        connections := if s.relayId in r.connections && r.connections[s.relayId] == connection
                                       then r.connections - {s.relayId} else r.connections);
      SocketsAmong(r, dropped, ids);
      AbandonAllAmong(dropped, r.pendingAcks, Some(connection), ids);
    }
  }

  lemma SocketsAmong(a: Relay, b: Relay, ids: set<CommandId>)
    requires PendingAmong(a, ids) && a.pendingAcks == b.pendingAcks && a.starting == b.starting
    ensures PendingAmong(b, ids)
  {
  }

  // While the relay drains no further command can become pending.
  lemma DrainingAmong(r: Relay, e: Event, ids: set<CommandId>)
    requires r.draining && r.connections == map[] && PendingAmong(r, ids)
    ensures PendingAmong(Next(r, e), ids)
  {
    match e
    case SocketClosed(connection) => CloseAmong(r, connection, ids);
    case DrainBegan =>
      var cleared := r.(draining := true, sockets := CloseSockets(r.sockets, r.connections.Values),
                        connections := map[]);
      SocketsAmong(r, cleared, ids);
      AbandonAllAmong(cleared, r.pendingAcks, None, ids);
    case TimerFired(id) => DeleteSpec(r.pendingAcks, id);
    case SendErrored(id) => DeleteSpec(r.pendingAcks, id);
    case AckArrived(_, id) => DeleteSpec(r.pendingAcks, id);
    case _ =>
  }

  // After a drain only those commands can be pending whose calls were past their
  // lookup, and not yet registered, when it began.
  lemma {:induction false} PendingAfterDrain(es: seq<Event>, more: seq<Event>)
    requires FreshRun(es + [DrainBegan] + more)
    ensures PendingAmong(Run(es + [DrainBegan] + more), Run(es + [DrainBegan]).starting.Keys)
    decreases |more|
  {
    var drained, all := es + [DrainBegan], es + [DrainBegan] + more;
    if more == [] {
      assert all == drained && drained[..|drained| - 1] == es;
      RunKeeps(es);
      hide Inv, FreshNames, CommandInv, Run;
      DrainKeeps(Run(es));
      RunOfDrain(es);
    } else {
      var n := |more| - 1;
      assert all[..|all| - 1] == drained + more[..n] && all[|all| - 1] == more[n];
      assert DrainBegan in drained + more[..n] by { assert drained[|es|] == DrainBegan; }
      RunNext(drained + more[..n], more[n], all);
      hide FreshNames, Run, Next, PendingAmong;
      PendingAfterDrain(es, more[..n]);
      DrainedForEver(drained + more[..n], "");
      DrainingAmong(Run(drained + more[..n]), more[n], Run(drained).starting.Keys);
    }
  }

  lemma RunOfDrain(es: seq<Event>)
    ensures Run(es + [DrainBegan]) == BeginDrain(Run(es))
  {
    assert (es + [DrainBegan])[..|es|] == es;
  }

  lemma RunNext(es: seq<Event>, e: Event, all: seq<Event>)
    requires all != [] && all[..|all| - 1] == es && all[|all| - 1] == e
    ensures Run(all) == Next(Run(es), e)
    ensures FreshRun(all) <==> FreshRun(es) && FreshNames(Run(es), e)
  {
  }

  // Nothing ever becomes pending after a drain exactly when no call was between
  // its lookup and its registration as the drain began.
  lemma StaysEmptyIff(es: seq<Event>)
    requires FreshRun(es + [DrainBegan])
    ensures var all := es + [DrainBegan];
            (forall more: seq<Event> | FreshRun(all + more) :: Run(all + more).pendingAcks == []) <==>
            Run(all).starting == map[]
  {
    var all := es + [DrainBegan];
    if Run(all).starting == map[] {
      forall more: seq<Event> | FreshRun(all + more) ensures Run(all + more).pendingAcks == [] {
        hide Run, FreshRun;
        PendingAfterDrain(es, more);
        SomePending(Run(all + more).pendingAcks);
      }
    } else {
      var id :| id in Run(all).starting;
      RunNext(all, StartAudited(id), all + [StartAudited(id)]);
      hide Run, FreshRun;
      assert FreshRun(all + [StartAudited(id)]);
      assert Run(all + [StartAudited(id)]).pendingAcks != [];
    }
  }

  // One call past its lookup is enough.
  lemma RegistersAfterDrain(relayId: string)
    requires Trim(relayId) == relayId
    ensures var es := [Connected(relayId, 0), Called(relayId, 0), DrainBegan, StartAudited(0)];
            FreshRun(es) && Run(es).draining && Run(es).pendingAcks == [Pending(0, 0)]
  {
    var e0, e1, e2, e3 := Connected(relayId, 0), Called(relayId, 0), DrainBegan, StartAudited(0);
    var r1 := EMPTY.(sockets := map[0 := Socket(relayId, true)], connections := map[relayId := 0]);
    var r2 := r1.(starting := map[0 := 0]);
    var s0: seq<Event>, s1, s2, s3, s4 := [], [e0], [e0, e1], [e0, e1, e2], [e0, e1, e2, e3];
    assert s1[..0] == s0 && s2[..1] == s1 && s3[..2] == s2 && s4[..3] == s3;
    assert Run(s0) == EMPTY && FreshRun(s0);
    assert Run(s1) == r1 && FreshRun(s1);
    assert Run(s2) == r2 && FreshRun(s2);
    assert Run(s3).starting == map[0 := 0] && Run(s3).pendingAcks == [] && Run(s3).draining && FreshRun(s3);
    assert Run(s4) == Register(Run(s3), 0) && FreshRun(s4);
    assert [] + [Pending(0, 0)] == [Pending(0, 0)];
  }
}

// scheduleRealtimeReload and flushRealtimeReload of server/index.js: requests
// for a reload are gathered and picked up by at most one flush at a time.
module RealtimeReload {
  import opened Text
  import opened Wrappers

  // A reload event from another server.
  datatype Request = Request(sourceId: string, workspaceId: string, authReload: bool, fullReload: bool)

  // What a flush took over when it started.
  datatype Batch = Batch(auth: bool, full: bool, workspaceIds: set<string>)

  // A flush, and how many requests had been accepted when it started.
  datatype Flush = Flush(seen: nat, batch: Batch)

  datatype State = State(
    timer: bool,               // realtimeReloadTimer is set
    running: bool,             // realtimeReloadRunning
    pending: Batch,            // the pending flags and the workspace set
    liveTimers: nat,           // callbacks set and not yet fired
    flushing: nat,             // flushes started and not yet finished
    arrived: seq<Request>,     // history: the accepted requests
    flushes: seq<Flush>)       // history: the flushes started

  const NOTHING_PENDING := Batch(false, false, {})
  const INITIAL := State(false, false, NOTHING_PENDING, 0, 0, [], [])

  function WorkspaceOf(r: Request): string {
    Trim(r.workspaceId)
  }

  function WithRequest(b: Batch, r: Request): Batch {
    var ws := WorkspaceOf(r);
    Batch(b.auth || r.authReload,
          b.full || r.fullReload || (!r.authReload && ws == "" && !r.fullReload),
          if ws != "" && !r.fullReload then b.workspaceIds + {ws} else b.workspaceIds)
  }

  function SetTimer(s: State): State {
    s.(timer := true, liveTimers := s.liveTimers + 1)
  }

  // A repository that is not enabled and an event of this server's own are ignored.
  predicate Accepts(enabled: bool, ownSourceId: string, r: Request) {
    enabled && !(r.sourceId != "" && r.sourceId == ownSourceId)
  }

  function Schedule(s: State, enabled: bool, ownSourceId: string, r: Request): State {
    if !Accepts(enabled, ownSourceId, r) then s
    else
      var noted := s.(pending := WithRequest(s.pending, r), arrived := s.arrived + [r]);
      if s.timer || s.running then noted else SetTimer(noted)
  }

  // The timer's callback, up to its first await.
  function StartFlush(s: State): State {
    if s.liveTimers == 0 then s
    else
      var fired := s.(timer := false, liveTimers := s.liveTimers - 1);
      if s.running then fired
      else fired.(running := true, flushing := s.flushing + 1, pending := NOTHING_PENDING,
                  flushes := s.flushes + [Flush(|s.arrived|, s.pending)])
  }

  // Its `finally` block, after the loads succeeded or failed.
  function EndFlush(s: State): State {
    if s.flushing == 0 then s
    else
      var ended := s.(running := false, flushing := s.flushing - 1);
      if s.pending != NOTHING_PENDING then SetTimer(ended) else ended
  }

  class Reloader {
    var timer: bool
    var running: bool
    var authPending: bool
    var fullPending: bool
    var workspaceReloads: set<string>
    ghost var liveTimers: nat
    ghost var flushing: nat
    ghost var arrived: seq<Request>
    ghost var flushes: seq<Flush>

    ghost function Now(): State
      reads this
    {
      State(timer, running, Batch(authPending, fullPending, workspaceReloads), liveTimers, flushing, arrived, flushes)
    }

    constructor ()
      ensures Now() == INITIAL
    {
      timer, running, authPending, fullPending, workspaceReloads := false, false, false, false, {};
      liveTimers, flushing, arrived, flushes := 0, 0, [], [];
    }

    method ScheduleRealtimeReload(enabled: bool, ownSourceId: string, r: Request)
      modifies this
      ensures Now() == Schedule(old(Now()), enabled, ownSourceId, r)
    {
      if !enabled { return; }
      if r.sourceId != "" && r.sourceId == ownSourceId { return; }
      if r.authReload { authPending := true; }
      var workspaceId := Trim(r.workspaceId);
      if workspaceId != "" && !r.fullReload {
        workspaceReloads := workspaceReloads + {workspaceId};
      } else if r.fullReload {
        fullPending := true;
      }
      if !r.authReload && workspaceId == "" && !r.fullReload { fullPending := true; }
      arrived := arrived + [r];
      if timer || running { return; }
      timer := true;
      liveTimers := liveTimers + 1;
    }

    method StartFlushRealtimeReload() returns (batch: Option<Batch>)
      requires liveTimers > 0
      modifies this
      ensures Now() == StartFlush(old(Now()))
      ensures batch == if old(running) then None else Some(old(Now().pending))
    {
      timer := false;
      liveTimers := liveTimers - 1;
      if running { return None; }
      running := true;
      flushing := flushing + 1;
      batch := Some(Batch(authPending, fullPending, workspaceReloads));
      flushes := flushes + [Flush(|arrived|, batch.value)];
      authPending, fullPending, workspaceReloads := false, false, {};
    }

    method EndFlushRealtimeReload()
      requires flushing > 0
      modifies this
      ensures Now() == EndFlush(old(Now()))
    {
      running := false;
      flushing := flushing - 1;
      if authPending || fullPending || workspaceReloads != {} {
        timer := true;
        liveTimers := liveTimers + 1;
      }
    }
  }

  // ------------------------------------------------------------------- runs

  datatype Event = Requested(enabled: bool, ownSourceId: string, r: Request) | TimerFired | FlushEnded

  function Next(s: State, e: Event): State {
    match e
    case Requested(enabled, ownSourceId, r) => Schedule(s, enabled, ownSourceId, r)
    case TimerFired => StartFlush(s)
    case FlushEnded => EndFlush(s)
  }

  function Run(es: seq<Event>): State {
    if es == [] then INITIAL else Next(Run(es[..|es| - 1]), es[|es| - 1])
  }

  // The batch reloads all that the request asks for.
  predicate Covers(b: Batch, r: Request) {
    && (r.authReload ==> b.auth)
    && (WorkspaceOf(r) != "" && !r.fullReload ==> WorkspaceOf(r) in b.workspaceIds)
    && (r.fullReload || (!r.authReload && WorkspaceOf(r) == "") ==> b.full)
  }

  // A flush that started after request i arrived covers it.
  ghost predicate PickedUp(s: State, i: nat)
    requires i < |s.arrived|
  {
    exists k :: 0 <= k < |s.flushes| && s.flushes[k].seen > i && Covers(s.flushes[k].batch, s.arrived[i])
  }

  ghost predicate Inv(s: State) {
    && s.liveTimers == (if s.timer then 1 else 0)
    && s.flushing == (if s.running then 1 else 0)
    && !(s.timer && s.running)
    && (s.pending != NOTHING_PENDING ==> s.timer || s.running)
    && (forall i: nat | i < |s.arrived| :: PickedUp(s, i) || Covers(s.pending, s.arrived[i]))
  }

  lemma ScheduleKeeps(s: State, enabled: bool, ownSourceId: string, r: Request)
    requires Inv(s)
    ensures Inv(Schedule(s, enabled, ownSourceId, r))
  {
    hide Trim;
    var next := Schedule(s, enabled, ownSourceId, r);
    forall i: nat | i < |next.arrived| ensures PickedUp(next, i) || Covers(next.pending, next.arrived[i]) {
      if i < |s.arrived| && PickedUp(s, i) {
        var k :| 0 <= k < |s.flushes| && s.flushes[k].seen > i && Covers(s.flushes[k].batch, s.arrived[i]);
        assert next.flushes[k] == s.flushes[k];
      }
    }
  }

  lemma StartKeeps(s: State)
    requires Inv(s)
    ensures Inv(StartFlush(s))
    ensures s.liveTimers > 0 ==> forall i: nat | i < |s.arrived| :: PickedUp(StartFlush(s), i)
  {
    var next := StartFlush(s);
    if s.liveTimers > 0 {
      hide Covers;
      forall i: nat | i < |s.arrived| ensures PickedUp(next, i) {
        if PickedUp(s, i) {
          var k :| 0 <= k < |s.flushes| && s.flushes[k].seen > i && Covers(s.flushes[k].batch, s.arrived[i]);
          assert next.flushes[k] == s.flushes[k];
        } else {
          assert next.flushes[|s.flushes|] == Flush(|s.arrived|, s.pending);
        }
      }
    }
  }

  lemma EndKeeps(s: State)
    requires Inv(s)
    ensures Inv(EndFlush(s))
  {
    var next := EndFlush(s);
    hide Covers;
    forall i: nat | i < |s.arrived| ensures PickedUp(next, i) || Covers(next.pending, next.arrived[i]) {
      if PickedUp(s, i) {
        var k :| 0 <= k < |s.flushes| && s.flushes[k].seen > i && Covers(s.flushes[k].batch, s.arrived[i]);
        assert next.flushes[k] == s.flushes[k];
      }
    }
  }

  lemma {:induction false} RunKeeps(es: seq<Event>)
    ensures Inv(Run(es))
  {
    if es == [] {
    } else {
      hide Inv;
      var s := Run(es[..|es| - 1]);
      RunKeeps(es[..|es| - 1]);
      match es[|es| - 1]
      case Requested(enabled, ownSourceId, r) => ScheduleKeeps(s, enabled, ownSourceId, r);
      case TimerFired => StartKeeps(s);
      case FlushEnded => EndKeeps(s);
    }
  }

  // In every interleaving of events, timers and loads a pending request has a
  // timer set or a flush running, never both; there is at most one timer and
  // one flush; and every accepted request was picked up by a flush that started
  // after it arrived, or is still pending.
  lemma NoRequestIsLost(es: seq<Event>, i: nat)
    requires i < |Run(es).arrived|
    ensures var s := Run(es);
            && (s.pending != NOTHING_PENDING ==> s.timer != s.running)
            && s.liveTimers + s.flushing <= 1
            && (PickedUp(s, i) || (Covers(s.pending, s.arrived[i]) && s.timer != s.running))
  {
    RunKeeps(es);
    hide Run, Trim;
    CoversSomething(Run(es).pending, Run(es).arrived[i]);
  }

  lemma CoversSomething(b: Batch, r: Request)
    ensures Covers(b, r) ==> b != NOTHING_PENDING
  {
    hide Trim;
  }

  // From every reachable state, the end of the running flush, if any, and the
  // next timer leave no accepted request behind.
  lemma PickedUpWithinOneFlush(es: seq<Event>, i: nat)
    requires i < |Run(es).arrived|
    ensures var s := Run(es);
            var ended := if s.running then EndFlush(s) else s;
            PickedUp(s, i) || (ended.liveTimers == 1 && PickedUp(StartFlush(ended), i))
  {
    RunKeeps(es);
    NoRequestIsLost(es, i);
    hide Run, Covers, PickedUp, Inv;
    var s := Run(es);
    var ended := if s.running then EndFlush(s) else s;
    if !PickedUp(s, i) {
      CoversSomething(s.pending, s.arrived[i]);
      EndKeeps(s);
      TimerAfter(s);
      StartKeeps(ended);
    }
  }

  lemma TimerAfter(s: State)
    requires Inv(s) && s.pending != NOTHING_PENDING
    ensures (if s.running then EndFlush(s) else s).liveTimers == 1
    ensures (if s.running then EndFlush(s) else s).arrived == s.arrived
  {
  }
}

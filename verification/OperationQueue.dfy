// submitAgentMarkdownOperation of server/markdown-operations.js: a chain of
// promises per document key. Each promise reaction is a step.
module OperationQueue {
  import opened Wrappers

  // A submission's promise: waiting for its predecessor, applying, settled with
  // its `finally` still to run, cleaned up by it, and settled for its successor.
  datatype Status = Waiting | Applying | Settled(ok: bool) | Cleaned | Released

  datatype Task = Task(key: string, after: Option<nat>, status: Status)

  // tasks are in submission order; queues maps a key to the tail of its chain.
  datatype State = State(tasks: seq<Task>, queues: map<string, nat>, started: seq<nat>)

  function With(s: State, t: nat, status: Status): State
    requires t < |s.tasks|
  {
    s.(tasks := s.tasks[t := s.tasks[t].(status := status)])
  }

  function Submit(s: State, key: string): State {
    var previous := if key in s.queues then Some(s.queues[key]) else None;
    s.(tasks := s.tasks + [Task(key, previous, Waiting)], queues := s.queues[key := |s.tasks|])
  }

  predicate Ready(s: State, t: nat) {
    && t < |s.tasks| && s.tasks[t].status == Waiting
    && (s.tasks[t].after.None? ||
        (s.tasks[t].after.value < |s.tasks| && s.tasks[s.tasks[t].after.value].status == Released))
  }

  // The apply starts once the predecessor's promise settles, however it settled.
  function Start(s: State, t: nat): State {
    if !Ready(s, t) then s else With(s, t, Applying).(started := s.started + [t])
  }

  function Finish(s: State, t: nat, ok: bool): State {
    if t < |s.tasks| && s.tasks[t].status == Applying then With(s, t, Settled(ok)) else s
  }

  // The `finally` callback.
  function Cleanup(s: State, t: nat): State {
    if t < |s.tasks| && s.tasks[t].status.Settled? then
      var key := s.tasks[t].key;
      With(s, t, Cleaned).(queues := if key in s.queues && s.queues[key] == t then s.queues - {key} else s.queues)
    else s
  }

  // The promise that `finally` returns settles.
  function Release(s: State, t: nat): State {
    if t < |s.tasks| && s.tasks[t].status == Cleaned then With(s, t, Released) else s
  }

  class OperationQueues {
    var tasks: seq<Task>
    var queues: map<string, nat>
    ghost var started: seq<nat>

    ghost function Now(): State
      reads this
    {
      State(tasks, queues, started)
    }

    constructor ()
      ensures Now() == State([], map[], [])
    {
      tasks, queues, started := [], map[], [];
    }

    method SubmitAgentMarkdownOperation(key: string) returns (t: nat)
      modifies this
      ensures Now() == Submit(old(Now()), key) && t == old(|tasks|)
    {
      var previous: Option<nat> := if key in queues then Some(queues[key]) else None;
      t := |tasks|;
      tasks := tasks + [Task(key, previous, Waiting)];
      queues := queues[key := t];
    }

    method StartApply(t: nat) returns (ready: bool)
      modifies this
      ensures Now() == Start(old(Now()), t) && ready == Ready(old(Now()), t)
    {
      if t >= |tasks| || tasks[t].status != Waiting { return false; }
      var after := tasks[t].after;
      if after.Some? && (after.value >= |tasks| || tasks[after.value].status != Released) { return false; }
      tasks := tasks[t := tasks[t].(status := Applying)];
      started := started + [t];
      return true;
    }

    method FinishApply(t: nat, ok: bool)
      requires t < |tasks| && tasks[t].status == Applying
      modifies this
      ensures Now() == Finish(old(Now()), t, ok)
    {
      tasks := tasks[t := tasks[t].(status := Settled(ok))];
    }

    method RunFinally(t: nat)
      requires t < |tasks| && tasks[t].status.Settled?
      modifies this
      ensures Now() == Cleanup(old(Now()), t)
    {
      var key := tasks[t].key;
      if key in queues && queues[key] == t {
        queues := queues - {key};
      }
      tasks := tasks[t := tasks[t].(status := Cleaned)];
    }

    method ReleaseSuccessor(t: nat)
      requires t < |tasks| && tasks[t].status == Cleaned
      modifies this
      ensures Now() == Release(old(Now()), t)
    {
      tasks := tasks[t := tasks[t].(status := Released)];
    }
  }

  // ------------------------------------------------------------------- runs

  datatype Event =
    | Submitted(key: string)
    | Started(t: nat)
    | Finished(t: nat, ok: bool)
    | FinallyRan(t: nat)
    | ReleasedNext(t: nat)

  function Next(s: State, e: Event): State {
    match e
    case Submitted(key) => Submit(s, key)
    case Started(t) => Start(s, t)
    case Finished(t, ok) => Finish(s, t, ok)
    case FinallyRan(t) => Cleanup(s, t)
    case ReleasedNext(t) => Release(s, t)
  }

  function Run(es: seq<Event>): State {
    if es == [] then State([], map[], []) else Next(Run(es[..|es| - 1]), es[|es| - 1])
  }

  predicate Over(status: Status) {
    status == Cleaned || status == Released
  }

  // Every earlier submission on the task's key is over.
  ghost predicate EarlierOver(s: State, t: nat)
    requires t < |s.tasks|
  {
    forall i: nat | i < t && s.tasks[i].key == s.tasks[t].key :: Over(s.tasks[i].status)
  }

  ghost predicate TaskInv(s: State, t: nat)
    requires t < |s.tasks|
  {
    var x := s.tasks[t];
    && (match x.after
        case None => EarlierOver(s, t)
        case Some(p) => p < t && s.tasks[p].key == x.key && forall i | p < i < t :: s.tasks[i].key != x.key)
    && (x.status != Waiting ==> EarlierOver(s, t))
  }

  ghost predicate QueueInv(s: State, key: string) {
    if key in s.queues then
      var q := s.queues[key];
      && q < |s.tasks| && s.tasks[q].key == key && !Over(s.tasks[q].status)
      && forall i | q < i < |s.tasks| :: s.tasks[i].key != key
    else forall i | 0 <= i < |s.tasks| && s.tasks[i].key == key :: Over(s.tasks[i].status)
  }

  ghost predicate StartedInv(s: State) {
    && (forall a | 0 <= a < |s.started| :: s.started[a] < |s.tasks| && s.tasks[s.started[a]].status != Waiting)
    && (forall a, b | 0 <= a < b < |s.started| && s.tasks[s.started[a]].key == s.tasks[s.started[b]].key ::
          s.started[a] < s.started[b])
  }

  ghost predicate Inv(s: State) {
    && (forall t: nat | t < |s.tasks| :: TaskInv(s, t))
    && (forall key: string :: QueueInv(s, key))
    && StartedInv(s)
  }

  // A status that moves on, never back from over.
  lemma MoveKeepsTasks(s: State, t: nat, status: Status, next: State)
    requires Inv(s) && t < |s.tasks| && next.tasks == With(s, t, status).tasks
    requires (Over(s.tasks[t].status) ==> Over(status)) && status != Waiting && EarlierOver(s, t)
    ensures forall i: nat | i < |next.tasks| :: TaskInv(next, i)
  {
    forall i: nat | i < |next.tasks| ensures TaskInv(next, i) {
      assert TaskInv(s, i);
    }
  }

  lemma ReadyHasEarlierOver(s: State, t: nat)
    requires Inv(s) && Ready(s, t)
    ensures EarlierOver(s, t)
  {
    assert TaskInv(s, t);
    if s.tasks[t].after.Some? {
      var p := s.tasks[t].after.value;
      assert TaskInv(s, p);
    }
  }

  lemma MoveKeepsQueues(s: State, t: nat, status: Status, next: State)
    requires Inv(s) && t < |s.tasks| && next.tasks == With(s, t, status).tasks && next.queues == s.queues
    requires Over(s.tasks[t].status) == Over(status)
    ensures forall key: string :: QueueInv(next, key)
  {
    forall key: string ensures QueueInv(next, key) { assert QueueInv(s, key); }
  }

  lemma SubmitKeeps(s: State, key: string)
    requires Inv(s)
    ensures Inv(Submit(s, key))
  {
    var next := Submit(s, key);
    assert QueueInv(s, key);
    forall i: nat | i < |next.tasks| ensures TaskInv(next, i) {
      if i < |s.tasks| { assert TaskInv(s, i); }
    }
    forall k: string ensures QueueInv(next, k) { assert QueueInv(s, k); }
    assert forall a | 0 <= a < |s.started| :: next.tasks[s.started[a]] == s.tasks[s.started[a]];
  }

  lemma StartKeeps(s: State, t: nat)
    requires Inv(s) && Ready(s, t)
    ensures Inv(Start(s, t))
  {
    var next := Start(s, t);
    ReadyHasEarlierOver(s, t);
    MoveKeepsTasks(s, t, Applying, next);
    MoveKeepsQueues(s, t, Applying, next);
    forall a | 0 <= a < |s.started| && s.tasks[s.started[a]].key == s.tasks[t].key ensures s.started[a] < t {
      assert TaskInv(s, s.started[a]);
    }
  }

  lemma MoveKeeps(s: State, t: nat, status: Status)
    requires Inv(s) && t < |s.tasks| && s.tasks[t].status != Waiting && status != Waiting
    requires Over(s.tasks[t].status) == Over(status)
    ensures Inv(With(s, t, status))
  {
    assert TaskInv(s, t);
    MoveKeepsTasks(s, t, status, With(s, t, status));
    MoveKeepsQueues(s, t, status, With(s, t, status));
  }

  lemma CleanupKeeps(s: State, t: nat)
    requires Inv(s) && t < |s.tasks| && s.tasks[t].status.Settled?
    ensures Inv(Cleanup(s, t))
  {
    var next := Cleanup(s, t);
    assert TaskInv(s, t);
    MoveKeepsTasks(s, t, Cleaned, next);
    forall key: string ensures QueueInv(next, key) { assert QueueInv(s, key); }
  }

  lemma NextKeeps(s: State, e: Event)
    requires Inv(s)
    ensures Inv(Next(s, e))
  {
    hide Inv;
    match e
    case Submitted(key) => SubmitKeeps(s, key);
    case Started(t) => if Ready(s, t) { StartKeeps(s, t); }
    case Finished(t, ok) => if t < |s.tasks| && s.tasks[t].status == Applying { MoveKeeps(s, t, Settled(ok)); }
    case FinallyRan(t) => if t < |s.tasks| && s.tasks[t].status.Settled? { CleanupKeeps(s, t); }
    case ReleasedNext(t) => if t < |s.tasks| && s.tasks[t].status == Cleaned { MoveKeeps(s, t, Released); }
  }

  lemma {:induction false} RunKeeps(es: seq<Event>)
    ensures Inv(Run(es))
  {
    if es == [] {
      forall key: string ensures QueueInv(Run(es), key) {}
    } else {
      hide Inv, Next;
      RunKeeps(es[..|es| - 1]);
      NextKeeps(Run(es[..|es| - 1]), es[|es| - 1]);
    }
  }

  // In every interleaving of submissions and completions over any number of
  // documents, at most one apply per document is in flight, an apply starts
  // only when everything submitted before it on its document is over, whether
  // or not it failed, and applies on one document start in submission order.
  lemma OneApplyPerDocument(es: seq<Event>)
    ensures var s := Run(es);
            && (forall i, j | 0 <= i < j < |s.tasks| && s.tasks[i].key == s.tasks[j].key ::
                  !(s.tasks[i].status == Applying && s.tasks[j].status == Applying))
            && (forall i, j | 0 <= i < j < |s.tasks| && s.tasks[i].key == s.tasks[j].key &&
                s.tasks[j].status != Waiting ::
                  Over(s.tasks[i].status))
            && (forall a, b | 0 <= a < b < |s.started| ::
                  s.started[a] < |s.tasks| && s.started[b] < |s.tasks| &&
                  (s.tasks[s.started[a]].key == s.tasks[s.started[b]].key ==> s.started[a] < s.started[b]))
  {
    RunKeeps(es);
    hide Run;
    var s := Run(es);
    forall j: nat | j < |s.tasks| && s.tasks[j].status != Waiting ensures EarlierOver(s, j) {
      assert TaskInv(s, j);
    }
    forall i, j | 0 <= i < j < |s.tasks| && s.tasks[i].key == s.tasks[j].key && s.tasks[j].status != Waiting
      ensures Over(s.tasks[i].status)
    {
      var k: nat := i;
      assert EarlierOver(s, j);
    }
  }

  // A key without a tail has nothing left to run, so a new chain starts only
  // when the previous one is over; a key with a tail chains after it.
  lemma NewChainOnlyWhenIdle(es: seq<Event>, key: string)
    ensures var s := Run(es);
            var x := Submit(s, key).tasks[|s.tasks|];
            && (x.after.None? <==> forall i | 0 <= i < |s.tasks| && s.tasks[i].key == key :: Over(s.tasks[i].status))
            && (x.after.Some? ==>
                  && x.after.value < |s.tasks| && s.tasks[x.after.value].key == key
                  && forall i | x.after.value < i < |s.tasks| :: s.tasks[i].key != key)
  {
    RunKeeps(es);
    hide Run;
    assert QueueInv(Run(es), key);
  }

  predicate Moves(s: State, t: nat) {
    t < |s.tasks| && (Ready(s, t) || s.tasks[t].status == Applying || s.tasks[t].status.Settled? ||
                      s.tasks[t].status == Cleaned)
  }

  // No submission is stranded: while one on a key is not released, some task on
  // that key can take a step.
  lemma {:induction false} NothingStranded(es: seq<Event>, t: nat)
    requires t < |Run(es).tasks| && Run(es).tasks[t].status != Released
    ensures exists i: nat :: i <= t && Moves(Run(es), i) && Run(es).tasks[i].key == Run(es).tasks[t].key
  {
    RunKeeps(es);
    var s := Run(es);
    assert TaskInv(s, t);
    if s.tasks[t].status == Waiting && s.tasks[t].after.Some? && s.tasks[s.tasks[t].after.value].status != Released {
      NothingStranded(es, s.tasks[t].after.value);
    } else {
      assert Moves(s, t);
    }
  }
}

/**
 Requests that follow a node: queued slot deliveries, deferred deletes and asynchronous moves are
 posted to the executor that owns the node, and forward themselves when they run elsewhere because
 the node has migrated. A transition system over executors, control blocks and requests; an
 executor runs one thing at a time, which `PoolTheorems.MutualExclusion` proves for strands.
 */
module Delivery {

  type Exec = nat
  type NodeId = nat
  type ReqId = nat
  type ConnId = nat

  /** The lifetime block of a node; `moves` counts its changes of owner. */
  datatype Block = Block(owner: Exec, alive: bool, marked: bool, moves: nat)

  datatype Kind = Slot(conn: ConnId) | Delete | Move(target: Exec)

  /** Where a request is, and how it ended. */
  datatype Stage =
    | Flying                    // its owner has been read, `post` not called yet
    | Queued                    // in the queue of `to`
    | Taken                     // `to` runs its closure
    | Performed                 // the slot was started, the delete enqueued, or the move applied
    | Dropped(why: Reason)
  {
    predicate Pending() { Flying? || Queued? || Taken? }
  }

  datatype Reason = Gone | Disconnected | Retired

  /** `to` is the executor captured by the closure; `since` is the node's `moves` when it was emitted. */
  datatype Request = Request(node: NodeId, kind: Kind, to: Exec, forwards: nat, since: nat, stage: Stage)

  /** What an executor is running: nothing, user code, or a request before or after its owner check. */
  datatype Running = Nothing | UserCode | Checking(r: ReqId) | Ready(r: ReqId)
  {
    predicate Serves() { Checking? || Ready? }
  }

  /** History: request `r` was performed by `at` while the node's block named `owner`. */
  datatype Start = Start(r: ReqId, at: Exec, owner: Exec)

  /** History: the requests posted to an executor, and those it has begun to serve. */
  datatype Turns = Turns(posted: seq<ReqId>, begun: seq<ReqId>)

  datatype State = State(
    nodes: map<NodeId, Block>,
    connected: set<ConnId>,
    queues: map<Exec, seq<ReqId>>,
    running: map<Exec, Running>,
    retired: set<Exec>,
    reqs: seq<Request>,
    log: seq<Start>,
    turns: map<Exec, Turns>)
  {
    function SetStage(r: ReqId, s: Stage): State
      requires r < |reqs|
    {
      this.(reqs := reqs[r := reqs[r].(stage := s)])
    }

    function Runs(e: Exec, what: Running): State { this.(running := running[e := what]) }

    function Logged(r: ReqId, e: Exec, owner: Exec): State { this.(log := log + [Start(r, e, owner)]) }
  }

  /** The node may be called: a slot also needs it not marked for deletion. */
  predicate CanInvoke(nodes: map<NodeId, Block>, q: Request) {
    q.node in nodes && nodes[q.node].alive && (q.kind.Slot? ==> !nodes[q.node].marked)
  }

  /** Requests come into being and reach a queue, on any thread; a retired strand's queue is discarded. */
  datatype SendStep =
    | Emit(node: NodeId, kind: Kind)                        // read the owner, build the request
    | EmitInside(e: Exec, node: NodeId, conn: ConnId)       // Auto, emitted inside the owner: a direct call
    | Post(r: ReqId)                                        // owner->post(...)
    | Retire(e: Exec)

  /** An executor works on the next request of its queue. */
  datatype ServeStep =
    | Take(e: Exec)                                         // start its closure
    | Check(e: Exec)                                        // the closure reads the control block
    | Perform(e: Exec, subtree: set<NodeId>)                // inside the owner

  /** What happens to nodes, connections and executors meanwhile. */
  datatype WorldStep =
    | Enter(e: Exec) | Leave(e: Exec)                       // other work of the executor
    | Migrate(e: Exec, subtree: set<NodeId>, target: Exec)  // applyMoveTo, from inside the owner
    | Mark(node: NodeId)                                    // deleteLater, any thread
    | Destroy(node: NodeId)                                 // from wherever
    | Disconnect(conn: ConnId)

  datatype Step = Sends(send: SendStep) | Serves(serve: ServeStep) | World(world: WorldStep)

  ghost predicate Owns(nodes: map<NodeId, Block>, e: Exec, ns: set<NodeId>) {
    forall n :: n in ns ==> n in nodes && nodes[n].owner == e
  }

  ghost predicate CanSend(st: State, step: SendStep) {
    match step
    case Emit(n, _) => n in st.nodes
    case EmitInside(e, n, c) => e in st.running && st.running[e].UserCode? && n in st.nodes && st.nodes[n].owner == e
                                && c in st.connected && st.nodes[n].alive && !st.nodes[n].marked
    case Post(r) => r < |st.reqs| && st.reqs[r].stage.Flying? && st.reqs[r].to in st.queues && st.reqs[r].to in st.turns
    case Retire(e) => e in st.running && st.running[e].Nothing? && e in st.queues
  }

  ghost predicate CanServe(st: State, step: ServeStep) {
    match step
    case Take(e) => e in st.running && e in st.queues && e in st.turns && st.running[e].Nothing? && st.queues[e] != []
                    && st.queues[e][0] < |st.reqs|
    case Check(e) => e in st.running && st.running[e].Checking? && st.running[e].r < |st.reqs|
    case Perform(e, ns) => e in st.running && st.running[e].Ready? && st.running[e].r < |st.reqs|
                           && st.reqs[st.running[e].r].node in st.nodes
                           && (st.reqs[st.running[e].r].kind.Move? ==>
                                 && st.reqs[st.running[e].r].kind.target in st.running
                                 && st.reqs[st.running[e].r].node in ns && Owns(st.nodes, e, ns))
  }

  ghost predicate CanWorld(st: State, step: WorldStep) {
    match step
    case Enter(e) => e in st.running && st.running[e].Nothing?
    case Leave(e) => e in st.running && st.running[e].UserCode?
    case Migrate(e, ns, target) =>
      e in st.running && st.running[e].UserCode? && target in st.running && Owns(st.nodes, e, ns)
    case Mark(n) => n in st.nodes
    case Destroy(n) => n in st.nodes
    case Disconnect(_) => true
  }

  ghost predicate Enabled(st: State, step: Step) {
    match step
    case Sends(s) => CanSend(st, s)
    case Serves(s) => CanServe(st, s)
    case World(s) => CanWorld(st, s)
  }

  /** `applyMoveTo`: the nodes of a subtree change owner together. */
  function MoveNodes(nodes: map<NodeId, Block>, ns: set<NodeId>, target: Exec): map<NodeId, Block> {
    map n | n in nodes ::
      if n in ns && nodes[n].owner != target then nodes[n].(owner := target, moves := nodes[n].moves + 1) else nodes[n]
  }

  /** `postToReceiverOwner`, `postDeleteToOwner`, `postMoveToOwner`: the closure, once it runs in `e`. */
  function DoCheck(st: State, e: Exec): State
    requires e in st.running && st.running[e].Checking? && st.running[e].r < |st.reqs|
  {
    var r := st.running[e].r;
    var q := st.reqs[r];
    if !CanInvoke(st.nodes, q) then st.SetStage(r, Dropped(Gone)).Runs(e, Nothing)
    else
      var owner := st.nodes[q.node].owner;
      if owner != q.to then
        st.(reqs := st.reqs[r := q.(to := owner, forwards := q.forwards + 1, stage := Flying)]).Runs(e, Nothing)
      else st.Runs(e, Ready(r))
  }

  /** The task inside the closure; a slot reads its connection and its receiver once more. */
  function DoPerform(st: State, e: Exec, subtree: set<NodeId>): State
    requires e in st.running && st.running[e].Ready? && st.running[e].r < |st.reqs|
    requires st.reqs[st.running[e].r].node in st.nodes
  {
    var r := st.running[e].r;
    var q := st.reqs[r];
    var owner := st.nodes[q.node].owner;
    match q.kind
    case Slot(conn) =>
      if conn !in st.connected then st.SetStage(r, Dropped(Disconnected)).Runs(e, Nothing)
      else if !CanInvoke(st.nodes, q) then st.SetStage(r, Dropped(Gone)).Runs(e, Nothing)
      else st.SetStage(r, Performed).Runs(e, UserCode).Logged(r, e, owner)
    case Delete => st.SetStage(r, Performed).Runs(e, Nothing).Logged(r, e, owner)
    case Move(target) =>
      st.SetStage(r, Performed).Runs(e, Nothing).Logged(r, e, owner).(nodes := MoveNodes(st.nodes, subtree, target))
  }

  /** `Strand::retire`: the queue is discarded, and later posts are refused. */
  function DoRetire(st: State, e: Exec): State
    requires e in st.queues
  {
    st.(retired := st.retired + {e},
        queues := st.queues[e := []],
        reqs := seq(|st.reqs|, i requires 0 <= i < |st.reqs| =>
                  if i in st.queues[e] then st.reqs[i].(stage := Dropped(Retired)) else st.reqs[i]))
  }

  ghost function DoSend(st: State, step: SendStep): State
    requires CanSend(st, step)
  {
    match step
    case Emit(n, kind) =>
      st.(reqs := st.reqs + [Request(n, kind, st.nodes[n].owner, 0, st.nodes[n].moves, Flying)])
    case EmitInside(e, n, c) =>
      st.(reqs := st.reqs + [Request(n, Slot(c), e, 0, st.nodes[n].moves, Performed)]).Logged(|st.reqs|, e,
        st.nodes[n].owner)
    case Post(r) =>
      var to := st.reqs[r].to;
      if to in st.retired then st.SetStage(r, Dropped(Retired))
      else st.SetStage(r, Queued).(queues := st.queues[to := st.queues[to] + [r]],
                                   turns := st.turns[to := st.turns[to].(posted := st.turns[to].posted + [r])])
    case Retire(e) => DoRetire(st, e)
  }

  ghost function DoServe(st: State, step: ServeStep): State
    requires CanServe(st, step)
  {
    match step
    case Take(e) =>
      var r := st.queues[e][0];
      st.SetStage(r, Taken).Runs(e, Checking(r))
      .(queues := st.queues[e := st.queues[e][1..]],
        turns := st.turns[e := st.turns[e].(begun := st.turns[e].begun + [r])])
    case Check(e) => DoCheck(st, e)
    case Perform(e, ns) => DoPerform(st, e, ns)
  }

  ghost function DoWorld(st: State, step: WorldStep): State
    requires CanWorld(st, step)
  {
    match step
    case Enter(e) => st.Runs(e, UserCode)
    case Leave(e) => st.Runs(e, Nothing)
    case Migrate(_, ns, target) => st.(nodes := MoveNodes(st.nodes, ns, target))
    case Mark(n) => st.(nodes := st.nodes[n := st.nodes[n].(marked := true)])
    case Destroy(n) => st.(nodes := st.nodes[n := st.nodes[n].(alive := false)])
    case Disconnect(c) => st.(connected := st.connected - {c})
  }

  ghost function Apply(st: State, step: Step): State
    requires Enabled(st, step)
  {
    match step
    case Sends(s) => DoSend(st, s)
    case Serves(s) => DoServe(st, s)
    case World(s) => DoWorld(st, s)
  }

  // ------------------------------------------------------------------ invariant

  ghost predicate NodesOk(nodes: map<NodeId, Block>, running: map<Exec, Running>, queues: map<Exec, seq<ReqId>>,
                          reqs: seq<Request>) {
    && (forall n :: n in nodes ==> nodes[n].owner in running)
    && running.Keys == queues.Keys
    && (forall r :: 0 <= r < |reqs| ==> reqs[r].node in nodes && reqs[r].to in queues)
  }

  /** One forward at most for every change of owner since the emit; one change is unspent while `to` is stale. */
  ghost predicate ForwardsOk(nodes: map<NodeId, Block>, reqs: seq<Request>) {
    forall r :: 0 <= r < |reqs| && reqs[r].node in nodes ==>
      && reqs[r].forwards <= nodes[reqs[r].node].moves - reqs[r].since
      && (reqs[r].stage.Pending() && reqs[r].to != nodes[reqs[r].node].owner ==>
            reqs[r].forwards < nodes[reqs[r].node].moves - reqs[r].since)
  }

  /** The queues hold the queued requests, each one once. */
  ghost predicate QueuesOk(queues: map<Exec, seq<ReqId>>, reqs: seq<Request>) {
    && (forall e, i :: e in queues && 0 <= i < |queues[e]| ==>
          queues[e][i] < |reqs| && reqs[queues[e][i]].stage.Queued? && reqs[queues[e][i]].to == e)
    && (forall e, i, j :: e in queues && 0 <= i < j < |queues[e]| ==> queues[e][i] != queues[e][j])
    && (forall r :: 0 <= r < |reqs| && reqs[r].stage.Queued? ==> reqs[r].to in queues && r in queues[reqs[r].to])
  }

  /** The executors serve the taken requests, each one once. */
  ghost predicate ServesOk(running: map<Exec, Running>, reqs: seq<Request>) {
    && (forall e :: e in running && running[e].Serves() ==>
          running[e].r < |reqs| && reqs[running[e].r].stage.Taken? && reqs[running[e].r].to == e)
    && (forall r :: 0 <= r < |reqs| && reqs[r].stage.Taken? ==>
          reqs[r].to in running && running[reqs[r].to].Serves() && running[reqs[r].to].r == r)
  }

  /** After its owner check, a request is in the owner. */
  ghost predicate ReadyOk(running: map<Exec, Running>, reqs: seq<Request>, nodes: map<NodeId, Block>) {
    forall e :: e in running && running[e].Ready? && running[e].r < |reqs| && reqs[running[e].r].node in nodes ==>
      nodes[reqs[running[e].r].node].owner == e
  }

  /** The node is destroyed, or it is marked for deletion and the request is a slot: deletes and moves still count. */
  ghost predicate Unreachable(nodes: map<NodeId, Block>, q: Request) {
    q.node in nodes && (!nodes[q.node].alive || (q.kind.Slot? && nodes[q.node].marked))
  }

  ghost predicate DropsOk(nodes: map<NodeId, Block>, connected: set<ConnId>, retired: set<Exec>, reqs: seq<Request>) {
    forall r :: 0 <= r < |reqs| && reqs[r].stage.Dropped? ==>
      match reqs[r].stage.why
      case Gone => Unreachable(nodes, reqs[r])
      case Disconnected => reqs[r].kind.Slot? && reqs[r].kind.conn !in connected
      case Retired => reqs[r].to in retired
  }

  function StartsOf(log: seq<Start>): set<ReqId> { set s | s in log :: s.r }

  ghost predicate LogOk(log: seq<Start>, reqs: seq<Request>) {
    && (forall i :: 0 <= i < |log| ==>
          log[i].r < |reqs| && reqs[log[i].r].stage.Performed? && log[i].at == log[i].owner)
    && (forall i, j :: 0 <= i < j < |log| ==> log[i].r != log[j].r)
    && (forall r :: 0 <= r < |reqs| && reqs[r].stage.Performed? ==> r in StartsOf(log))
  }

  /** An executor that is not retired begins its requests in the order in which they were posted. */
  ghost predicate TurnsOk(queues: map<Exec, seq<ReqId>>, turns: map<Exec, Turns>, retired: set<Exec>) {
    && turns.Keys == queues.Keys
    && forall e :: e in queues && e !in retired ==> InTurn(turns[e], queues[e])
  }

  ghost predicate InTurn(t: Turns, queue: seq<ReqId>) { t.posted == t.begun + queue }

  ghost predicate Inv(st: State) {
    && NodesOk(st.nodes, st.running, st.queues, st.reqs)
    && ForwardsOk(st.nodes, st.reqs)
    && QueuesOk(st.queues, st.reqs)
    && ServesOk(st.running, st.reqs)
    && ReadyOk(st.running, st.reqs, st.nodes)
    && DropsOk(st.nodes, st.connected, st.retired, st.reqs)
    && LogOk(st.log, st.reqs)
    && TurnsOk(st.queues, st.turns, st.retired)
  }

  /** The queued requests and their targets are the same in both. */
  ghost predicate SameQueued(reqs: seq<Request>, reqs': seq<Request>) {
    && |reqs| <= |reqs'|
    && (forall r :: 0 <= r < |reqs| ==> (reqs'[r].stage.Queued? <==> reqs[r].stage.Queued?))
    && (forall r :: 0 <= r < |reqs| && reqs[r].stage.Queued? ==> reqs'[r].to == reqs[r].to)
    && (forall r :: |reqs| <= r < |reqs'| ==> !reqs'[r].stage.Queued?)
  }

  lemma PostQueues(queues: map<Exec, seq<ReqId>>, reqs: seq<Request>, r: ReqId)
    requires QueuesOk(queues, reqs) && r < |reqs| && reqs[r].stage.Flying? && reqs[r].to in queues
    ensures QueuesOk(queues[reqs[r].to := queues[reqs[r].to] + [r]], reqs[r := reqs[r].(stage := Queued)])
  {
  }

  lemma TakeQueues(queues: map<Exec, seq<ReqId>>, reqs: seq<Request>, e: Exec)
    requires QueuesOk(queues, reqs) && e in queues && queues[e] != [] && queues[e][0] < |reqs|
    ensures QueuesOk(queues[e := queues[e][1..]], reqs[queues[e][0] := reqs[queues[e][0]].(stage := Taken)])
  {
    var r := queues[e][0];
    forall q | 0 <= q < |reqs| && q in queues[e] && q != r
      ensures q in queues[e][1..]
    {
      var i :| 0 <= i < |queues[e]| && queues[e][i] == q;
      assert queues[e][1..][i - 1] == q;
    }
  }

  lemma RetireQueues(st: State, e: Exec)
    requires QueuesOk(st.queues, st.reqs) && e in st.queues
    ensures QueuesOk(DoRetire(st, e).queues, DoRetire(st, e).reqs)
  {
  }

  lemma OtherQueues(queues: map<Exec, seq<ReqId>>, reqs: seq<Request>, reqs': seq<Request>)
    requires QueuesOk(queues, reqs) && SameQueued(reqs, reqs')
    ensures QueuesOk(queues, reqs')
  {
  }

  ghost predicate SameTaken(reqs: seq<Request>, reqs': seq<Request>) {
    && |reqs| <= |reqs'|
    && (forall r :: 0 <= r < |reqs| ==> (reqs'[r].stage.Taken? <==> reqs[r].stage.Taken?))
    && (forall r :: 0 <= r < |reqs| && reqs[r].stage.Taken? ==> reqs'[r].to == reqs[r].to)
    && (forall r :: |reqs| <= r < |reqs'| ==> !reqs'[r].stage.Taken?)
  }

  lemma TakeServes(running: map<Exec, Running>, reqs: seq<Request>, e: Exec, r: ReqId)
    requires ServesOk(running, reqs) && e in running && running[e].Nothing?
    requires r < |reqs| && reqs[r].to == e && !reqs[r].stage.Taken?
    ensures ServesOk(running[e := Checking(r)], reqs[r := reqs[r].(stage := Taken)])
  {
  }

  /** `e` ends its request, whatever becomes of it, or passes its owner check. */
  lemma EndServes(running: map<Exec, Running>, reqs: seq<Request>, e: Exec, q: Request, what: Running)
    requires ServesOk(running, reqs) && e in running && running[e].Serves()
    requires !q.stage.Taken? && !what.Serves()
    ensures running[e].r < |reqs| && ServesOk(running[e := what], reqs[running[e].r := q])
    ensures ServesOk(running[e := Ready(running[e].r)], reqs)
  {
  }

  lemma PostServes(running: map<Exec, Running>, reqs: seq<Request>, reqs': seq<Request>)
    requires ServesOk(running, reqs) && SameTaken(reqs, reqs')
    ensures ServesOk(running, reqs')
  {
  }

  /** The same requests count as performed. */
  ghost predicate SamePerformed(reqs: seq<Request>, reqs': seq<Request>) {
    && |reqs| <= |reqs'|
    && (forall r :: 0 <= r < |reqs| ==> (reqs'[r].stage.Performed? <==> reqs[r].stage.Performed?))
    && (forall r :: |reqs| <= r < |reqs'| ==> !reqs'[r].stage.Performed?)
  }

  lemma OtherLog(log: seq<Start>, reqs: seq<Request>, reqs': seq<Request>)
    requires LogOk(log, reqs) && SamePerformed(reqs, reqs')
    ensures LogOk(log, reqs')
  {
  }

  /** One more request is performed: `r`, which is new or was pending. */
  lemma OneMoreLog(log: seq<Start>, reqs: seq<Request>, reqs': seq<Request>, r: ReqId, e: Exec)
    requires LogOk(log, reqs) && |reqs| <= |reqs'| && r < |reqs'| && (r < |reqs| ==> !reqs[r].stage.Performed?)
    requires forall q :: 0 <= q < |reqs| && q != r ==> (reqs'[q].stage.Performed? <==> reqs[q].stage.Performed?)
    requires forall q :: |reqs| <= q < |reqs'| && q != r ==> !reqs'[q].stage.Performed?
    requires reqs'[r].stage.Performed?
    ensures LogOk(log + [Start(r, e, e)], reqs')
  {
    assert StartsOf(log + [Start(r, e, e)]) >= StartsOf(log) + {r} by {
      assert (log + [Start(r, e, e)])[|log|] == Start(r, e, e);
    }
  }

  lemma SendNodes(st: State, step: SendStep)
    requires Inv(st) && CanSend(st, step)
    ensures var s' := DoSend(st, step); NodesOk(s'.nodes, s'.running, s'.queues, s'.reqs)
  {
  }

  lemma SendForwards(st: State, step: SendStep)
    requires Inv(st) && CanSend(st, step)
    ensures ForwardsOk(DoSend(st, step).nodes, DoSend(st, step).reqs)
  {
  }

  lemma SendQueues(st: State, step: SendStep)
    requires Inv(st) && CanSend(st, step)
    ensures QueuesOk(DoSend(st, step).queues, DoSend(st, step).reqs)
  {
    match step
    case Post(r) =>
      if st.reqs[r].to in st.retired { OtherQueues(st.queues, st.reqs, DoSend(st, step).reqs); }
      else { PostQueues(st.queues, st.reqs, r); }
    case Retire(e) => RetireQueues(st, e);
    case _ => OtherQueues(st.queues, st.reqs, DoSend(st, step).reqs);
  }

  lemma SendRunning(st: State, step: SendStep)
    requires Inv(st) && CanSend(st, step)
    ensures ServesOk(DoSend(st, step).running, DoSend(st, step).reqs)
  {
    PostServes(st.running, st.reqs, DoSend(st, step).reqs);
  }

  lemma SendReady(st: State, step: SendStep)
    requires Inv(st) && CanSend(st, step)
    ensures var s' := DoSend(st, step); ReadyOk(s'.running, s'.reqs, s'.nodes)
  {
  }

  lemma SendDrops(st: State, step: SendStep)
    requires Inv(st) && CanSend(st, step)
    ensures var s' := DoSend(st, step); DropsOk(s'.nodes, s'.connected, s'.retired, s'.reqs)
  {
  }

  lemma SendLog(st: State, step: SendStep)
    requires Inv(st) && CanSend(st, step)
    ensures LogOk(DoSend(st, step).log, DoSend(st, step).reqs)
  {
    match step
    case EmitInside(e, _, _) => OneMoreLog(st.log, st.reqs, DoSend(st, step).reqs, |st.reqs|, e);
    case _ => OtherLog(st.log, st.reqs, DoSend(st, step).reqs);
  }

  lemma PerformNodes(st: State, e: Exec, subtree: set<NodeId>)
    requires Inv(st) && CanServe(st, Perform(e, subtree))
    ensures var s' := DoPerform(st, e, subtree); NodesOk(s'.nodes, s'.running, s'.queues, s'.reqs)
  {
  }

  lemma ServeNodes(st: State, step: ServeStep)
    requires Inv(st) && CanServe(st, step)
    ensures var s' := DoServe(st, step); NodesOk(s'.nodes, s'.running, s'.queues, s'.reqs)
  {
    match step
    case Perform(e, ns) => PerformNodes(st, e, ns);
    case _ =>
  }

  lemma PerformForwards(st: State, e: Exec, subtree: set<NodeId>)
    requires Inv(st) && CanServe(st, Perform(e, subtree))
    ensures var s' := DoPerform(st, e, subtree); ForwardsOk(s'.nodes, s'.reqs)
  {
  }

  lemma ServeForwards(st: State, step: ServeStep)
    requires Inv(st) && CanServe(st, step)
    ensures ForwardsOk(DoServe(st, step).nodes, DoServe(st, step).reqs)
  {
    match step
    case Perform(e, ns) => PerformForwards(st, e, ns);
    case _ =>
  }

  /** A request that `e` serves has not been performed before. */
  lemma ServedIsTaken(st: State, e: Exec)
    requires Inv(st) && e in st.running && st.running[e].Serves()
    ensures st.running[e].r < |st.reqs| && st.reqs[st.running[e].r].stage.Taken?
  {
  }

  lemma PerformOthers(st: State, e: Exec, subtree: set<NodeId>)
    requires Inv(st) && CanServe(st, Perform(e, subtree))
    ensures forall q :: 0 <= q < |st.reqs| && q != st.running[e].r ==> DoPerform(st, e, subtree).reqs[q] == st.reqs[q]
  {
  }

  lemma PerformEnds(st: State, e: Exec, subtree: set<NodeId>)
    requires CanServe(st, Perform(e, subtree))
    ensures var q, s' := st.running[e].r, DoPerform(st, e, subtree);
      |s'.reqs| == |st.reqs| && (s'.reqs[q].stage.Performed? || s'.reqs[q].stage.Dropped?)
  {
  }

  lemma PerformQueues(st: State, e: Exec, subtree: set<NodeId>)
    requires Inv(st) && CanServe(st, Perform(e, subtree))
    ensures SameQueued(st.reqs, DoPerform(st, e, subtree).reqs)
  {
    ServedIsTaken(st, e);
    PerformOthers(st, e, subtree);
    PerformEnds(st, e, subtree);
    OneEnds(st.reqs, DoPerform(st, e, subtree).reqs, st.running[e].r);
  }

  lemma OneEnds(reqs: seq<Request>, reqs': seq<Request>, r: ReqId)
    requires r < |reqs| == |reqs'| && !reqs[r].stage.Queued? && !reqs'[r].stage.Queued?
    requires forall q :: 0 <= q < |reqs| && q != r ==> reqs'[q] == reqs[q]
    ensures SameQueued(reqs, reqs')
  {
  }

  lemma CheckQueues(st: State, e: Exec)
    requires Inv(st) && CanServe(st, Check(e))
    ensures SameQueued(st.reqs, DoCheck(st, e).reqs)
  {
  }

  lemma ServeQueues(st: State, step: ServeStep)
    requires Inv(st) && CanServe(st, step)
    ensures QueuesOk(DoServe(st, step).queues, DoServe(st, step).reqs)
  {
    match step
    case Take(e) => TakeQueues(st.queues, st.reqs, e);
    case Check(e) =>
      CheckQueues(st, e);
      OtherQueues(st.queues, st.reqs, DoCheck(st, e).reqs);
    case Perform(e, ns) =>
      PerformQueues(st, e, ns);
      OtherQueues(st.queues, st.reqs, DoPerform(st, e, ns).reqs);
  }

  lemma ServeRunning(st: State, step: ServeStep)
    requires Inv(st) && CanServe(st, step)
    ensures ServesOk(DoServe(st, step).running, DoServe(st, step).reqs)
  {
    var s' := DoServe(st, step);
    match step
    case Take(e) => TakeServes(st.running, st.reqs, e, st.queues[e][0]);
    case Check(e) =>
      var q := s'.reqs[st.running[e].r];
      EndServes(st.running, st.reqs, e, if q.stage.Taken? then q.(stage := Flying) else q, Nothing);
    case Perform(e, _) => EndServes(st.running, st.reqs, e, s'.reqs[st.running[e].r], s'.running[e]);
  }

  /** `e` ends its request; only nodes that `e` owned may have moved. */
  lemma EndReady(running: map<Exec, Running>, reqs: seq<Request>, nodes: map<NodeId, Block>, nodes': map<NodeId,
                 Block>, e: Exec, q: Request, what: Running)
    requires ServesOk(running, reqs) && ReadyOk(running, reqs, nodes) && e in running && running[e].Serves()
    requires !what.Ready?
    requires nodes'.Keys == nodes.Keys && forall n :: n in nodes && nodes[n].owner != e ==>
      nodes'[n].owner == nodes[n].owner
    ensures running[e].r < |reqs| && ReadyOk(running[e := what], reqs[running[e].r := q], nodes')
  {
  }

  lemma PerformMovesOwn(st: State, e: Exec, subtree: set<NodeId>)
    requires CanServe(st, Perform(e, subtree))
    ensures var nodes' := DoPerform(st, e, subtree).nodes;
      && nodes'.Keys == st.nodes.Keys
      && forall n :: n in st.nodes && st.nodes[n].owner != e ==> nodes'[n].owner == st.nodes[n].owner
  {
  }

  lemma PerformShape(st: State, e: Exec, subtree: set<NodeId>)
    requires CanServe(st, Perform(e, subtree))
    ensures var s', r := DoPerform(st, e, subtree), st.running[e].r;
      && |s'.reqs| == |st.reqs| && s'.reqs == st.reqs[r := s'.reqs[r]]
      && e in s'.running && s'.running == st.running[e := s'.running[e]] && !s'.running[e].Ready?
  {
  }

  lemma PerformReady(st: State, e: Exec, subtree: set<NodeId>)
    requires Inv(st) && CanServe(st, Perform(e, subtree))
    ensures var s' := DoPerform(st, e, subtree); ReadyOk(s'.running, s'.reqs, s'.nodes)
  {
    var s' := DoPerform(st, e, subtree);
    PerformMovesOwn(st, e, subtree);
    PerformShape(st, e, subtree);
    EndReady(st.running, st.reqs, st.nodes, s'.nodes, e, s'.reqs[st.running[e].r], s'.running[e]);
  }

  lemma CheckReady(st: State, e: Exec)
    requires Inv(st) && CanServe(st, Check(e))
    ensures var s' := DoCheck(st, e); ReadyOk(s'.running, s'.reqs, s'.nodes)
  {
  }

  lemma ServeReady(st: State, step: ServeStep)
    requires Inv(st) && CanServe(st, step)
    ensures var s' := DoServe(st, step); ReadyOk(s'.running, s'.reqs, s'.nodes)
  {
    match step
    case Take(_) =>
    case Check(e) => CheckReady(st, e);
    case Perform(e, ns) => PerformReady(st, e, ns);
  }

  lemma PerformDrops(st: State, e: Exec, subtree: set<NodeId>)
    requires Inv(st) && CanServe(st, Perform(e, subtree))
    ensures var s' := DoPerform(st, e, subtree); DropsOk(s'.nodes, s'.connected, s'.retired, s'.reqs)
  {
  }

  lemma ServeDrops(st: State, step: ServeStep)
    requires Inv(st) && CanServe(st, step)
    ensures var s' := DoServe(st, step); DropsOk(s'.nodes, s'.connected, s'.retired, s'.reqs)
  {
    match step
    case Perform(e, ns) => PerformDrops(st, e, ns);
    case _ =>
  }

  lemma PerformLog(st: State, e: Exec, subtree: set<NodeId>)
    requires Inv(st) && CanServe(st, Perform(e, subtree))
    ensures LogOk(DoPerform(st, e, subtree).log, DoPerform(st, e, subtree).reqs)
  {
    var s', r := DoPerform(st, e, subtree), st.running[e].r;
    ServedIsTaken(st, e);
    PerformLogs(st, e, subtree);
    PerformOthers(st, e, subtree);
    if s'.log == st.log { OtherLog(st.log, st.reqs, s'.reqs); }
    else { OneMoreLog(st.log, st.reqs, s'.reqs, r, e); }
  }

  /** What is performed is logged, with the owner that `e` is. */
  lemma PerformLogs(st: State, e: Exec, subtree: set<NodeId>)
    requires Inv(st) && CanServe(st, Perform(e, subtree))
    ensures var s', r := DoPerform(st, e, subtree), st.running[e].r;
      && |s'.reqs| == |st.reqs|
      && s'.log == (if s'.reqs[r].stage.Performed? then st.log + [Start(r, e, e)] else st.log)
  {
  }

  lemma ServeLog(st: State, step: ServeStep)
    requires Inv(st) && CanServe(st, step)
    ensures LogOk(DoServe(st, step).log, DoServe(st, step).reqs)
  {
    var s' := DoServe(st, step);
    match step
    case Perform(e, _) => PerformLog(st, e, step.subtree);
    case _ => OtherLog(st.log, st.reqs, s'.reqs);
  }

  lemma WorldNodes(st: State, step: WorldStep)
    requires Inv(st) && CanWorld(st, step)
    ensures var s' := DoWorld(st, step); NodesOk(s'.nodes, s'.running, s'.queues, s'.reqs)
  {
  }

  lemma WorldForwards(st: State, step: WorldStep)
    requires Inv(st) && CanWorld(st, step)
    ensures ForwardsOk(DoWorld(st, step).nodes, DoWorld(st, step).reqs)
  {
  }

  lemma WorldRunning(st: State, step: WorldStep)
    requires Inv(st) && CanWorld(st, step)
    ensures ServesOk(DoWorld(st, step).running, DoWorld(st, step).reqs)
  {
  }

  lemma WorldReady(st: State, step: WorldStep)
    requires Inv(st) && CanWorld(st, step)
    ensures var s' := DoWorld(st, step); ReadyOk(s'.running, s'.reqs, s'.nodes)
  {
  }

  lemma WorldDrops(st: State, step: WorldStep)
    requires Inv(st) && CanWorld(st, step)
    ensures var s' := DoWorld(st, step); DropsOk(s'.nodes, s'.connected, s'.retired, s'.reqs)
  {
  }

  lemma PostTurns(t: Turns, queue: seq<ReqId>, r: ReqId)
    requires InTurn(t, queue)
    ensures InTurn(t.(posted := t.posted + [r]), queue + [r])
    ensures queue != [] ==> InTurn(t.(begun := t.begun + [queue[0]]), queue[1..])
  {
  }

  lemma SendTurns(st: State, step: SendStep)
    requires Inv(st) && CanSend(st, step)
    ensures var s' := DoSend(st, step); TurnsOk(s'.queues, s'.turns, s'.retired)
  {
    match step
    case Post(r) =>
      var to := st.reqs[r].to;
      if to !in st.retired { PostTurns(st.turns[to], st.queues[to], r); }
    case _ =>
  }

  lemma ServeTurns(st: State, step: ServeStep)
    requires Inv(st) && CanServe(st, step)
    ensures var s' := DoServe(st, step); TurnsOk(s'.queues, s'.turns, s'.retired)
  {
    match step
    case Take(e) => if e !in st.retired { PostTurns(st.turns[e], st.queues[e], 0); }
    case _ =>
  }

  // ------------------------------------------------------------------ whole runs

  /** Nothing has been emitted; executors are idle and own the nodes. */
  ghost predicate Init(st: State) {
    && (forall n :: n in st.nodes ==> st.nodes[n].owner in st.running)
    && st.running.Keys == st.queues.Keys
    && (forall e :: e in st.queues ==> st.queues[e] == [] && st.running[e].Nothing?)
    && st.reqs == [] && st.log == []
    && st.turns.Keys == st.queues.Keys && (forall e :: e in st.turns ==> st.turns[e] == Turns([], []))
  }

  ghost predicate Runs(st: State, steps: seq<Step>)
    decreases |steps|
  {
    steps == [] || (Enabled(st, steps[0]) && Runs(Apply(st, steps[0]), steps[1..]))
  }

  ghost function After(st: State, steps: seq<Step>): State
    requires Runs(st, steps)
    decreases |steps|
  {
    if steps == [] then st else After(Apply(st, steps[0]), steps[1..])
  }

  lemma StepInv(st: State, step: Step)
    requires Inv(st) && Enabled(st, step)
    ensures Inv(Apply(st, step))
  {
    match step
    case Sends(s) =>
      SendNodes(st, s); SendForwards(st, s); SendQueues(st, s); SendRunning(st, s);
      SendReady(st, s); SendDrops(st, s); SendLog(st, s); SendTurns(st, s);
    case Serves(s) =>
      ServeNodes(st, s); ServeForwards(st, s); ServeQueues(st, s); ServeRunning(st, s);
      ServeReady(st, s); ServeDrops(st, s); ServeLog(st, s); ServeTurns(st, s);
    case World(s) =>
      WorldNodes(st, s); WorldForwards(st, s); WorldRunning(st, s); WorldReady(st, s); WorldDrops(st, s);
  }

  lemma {:induction false} RunInv(st: State, steps: seq<Step>)
    requires Inv(st) && Runs(st, steps)
    ensures Inv(After(st, steps))
    decreases |steps|
  {
    if steps != [] {
      StepInv(st, steps[0]);
      RunInv(Apply(st, steps[0]), steps[1..]);
    }
  }

  ghost predicate Reachable(st: State) {
    exists s0: State, steps: seq<Step> :: Init(s0) && Runs(s0, steps) && After(s0, steps) == st
  }

  lemma ReachableInv(st: State)
    requires Reachable(st)
    ensures Inv(st)
  {
    var s0: State, steps: seq<Step> :| Init(s0) && Runs(s0, steps) && After(s0, steps) == st;
    RunInv(s0, steps);
  }

  /**
   Over every run mixing emits, migrations, deletes and shutdowns: whatever was performed was
   performed inside the executor that owned the node at that moment, and at most once.
   */
  lemma PerformedInsideOwnerOnce(st: State)
    requires Reachable(st)
    ensures forall i :: 0 <= i < |st.log| ==> st.log[i].at == st.log[i].owner
    ensures forall i, j :: 0 <= i < j < |st.log| ==> st.log[i].r != st.log[j].r
  {
    ReachableInv(st);
  }

  /** A request was forwarded at most once for every change of owner since its emit read the owner. */
  lemma ForwardsBounded(st: State, r: ReqId)
    requires Reachable(st) && r < |st.reqs|
    ensures st.reqs[r].node in st.nodes
    ensures st.reqs[r].forwards <= st.nodes[st.reqs[r].node].moves - st.reqs[r].since
  {
    ReachableInv(st);
  }

  /** Nothing is in flight, queued or being served. */
  ghost predicate Quiet(st: State) {
    && (forall q :: 0 <= q < |st.reqs| ==> !st.reqs[q].stage.Flying?)
    && (forall e :: e in st.queues ==> st.queues[e] == [])
    && (forall e :: e in st.running ==> !st.running[e].Serves())
  }

  ghost predicate Done(st: State, r: ReqId) { exists i :: 0 <= i < |st.log| && st.log[i].r == r }

  /**
   No request is lost: at rest every request was performed, or its node has been destroyed, or it is a
   slot whose receiver was marked for deletion or whose connection was cut, or the executor it had
   reached was shut down.
   */
  lemma NothingIsLost(st: State, r: ReqId)
    requires Reachable(st) && Quiet(st) && r < |st.reqs|
    ensures var q := st.reqs[r];
      && q.node in st.nodes
      && (|| Done(st, r)
          || !st.nodes[q.node].alive
          || (q.kind.Slot? && (st.nodes[q.node].marked || q.kind.conn !in st.connected))
          || q.to in st.retired)
  {
    ReachableInv(st);
    match st.reqs[r].stage
    case Performed =>
      var s :| s in st.log && s.r == r;
      var i :| 0 <= i < |st.log| && st.log[i] == s;
      assert st.log[i].r == r;
    case _ =>
  }

  /** So a deferred delete or a move of a node that is still alive has been performed, marked or not. */
  lemma DeletesAndMovesArrive(st: State, r: ReqId)
    requires Reachable(st) && Quiet(st) && r < |st.reqs| && !st.reqs[r].kind.Slot?
    requires st.reqs[r].node in st.nodes && st.nodes[st.reqs[r].node].alive && st.reqs[r].to !in st.retired
    ensures Done(st, r)
  {
    NothingIsLost(st, r);
  }

  /** Requests posted to an executor are begun in that order, none of them twice or left out, until it is shut down. */
  lemma BegunInOrder(st: State, e: Exec)
    requires Reachable(st) && e in st.queues && e !in st.retired
    ensures e in st.turns && st.turns[e].posted == st.turns[e].begun + st.queues[e]
  {
    ReachableInv(st);
  }

  /** A move that is performed makes the target the owner of the node and of its subtree, and of no other node. */
  lemma MoveMoves(st: State, e: Exec, subtree: set<NodeId>)
    requires CanServe(st, Perform(e, subtree)) && st.reqs[st.running[e].r].kind.Move?
    ensures var s', q := Apply(st, Serves(Perform(e, subtree))), st.reqs[st.running[e].r];
      && q.node in s'.nodes && s'.nodes[q.node].owner == q.kind.target && s'.nodes.Keys == st.nodes.Keys
      && forall n :: n in st.nodes ==> s'.nodes[n].owner == if n in subtree then q.kind.target else st.nodes[n].owner
  {
  }

  /** A request that was forwarded as often as its node moved has arrived: it is performed or dropped, not forwarded. */
  lemma SettledIsNotForwarded(st: State, e: Exec, r: ReqId)
    requires Reachable(st) && CanServe(st, Check(e)) && r == st.running[e].r && st.reqs[r].node in st.nodes
    requires st.reqs[r].forwards == st.nodes[st.reqs[r].node].moves - st.reqs[r].since
    ensures DoCheck(st, e).reqs[r].stage == Dropped(Gone) || DoCheck(st, e).running[e] == Ready(r)
  {
    ReachableInv(st);
  }

  /** A slot of a receiver that is marked for deletion or gone, or of a cut connection, never starts again. */
  lemma {:induction false} CutSlotNeverStarts(st: State, steps: seq<Step>, r: ReqId)
    requires Inv(st) && Runs(st, steps) && Cut(st, r)
    ensures r !in StartsOf(After(st, steps).log)
    decreases |steps|
  {
    if steps != [] {
      StepInv(st, steps[0]);
      StaysCut(st, steps[0], r);
      CutSlotNeverStarts(Apply(st, steps[0]), steps[1..], r);
    }
  }

  ghost predicate Cut(st: State, r: ReqId) {
    && r < |st.reqs| && st.reqs[r].kind.Slot? && r !in StartsOf(st.log)
    && (Unreachable(st.nodes, st.reqs[r]) || st.reqs[r].kind.conn !in st.connected)
  }

  lemma PerformStaysCut(st: State, e: Exec, subtree: set<NodeId>, r: ReqId)
    requires Inv(st) && CanServe(st, Perform(e, subtree)) && Cut(st, r)
    ensures Cut(DoPerform(st, e, subtree), r)
  {
    if st.running[e].r != r { PerformOthers(st, e, subtree); }
    PerformLogs(st, e, subtree);
  }

  lemma CheckStaysCut(st: State, e: Exec, r: ReqId)
    requires CanServe(st, Check(e)) && Cut(st, r)
    ensures Cut(DoCheck(st, e), r)
  {
  }

  lemma SendStaysCut(st: State, step: SendStep, r: ReqId)
    requires CanSend(st, step) && Cut(st, r)
    ensures Cut(DoSend(st, step), r)
  {
  }

  lemma WorldStaysCut(st: State, step: WorldStep, r: ReqId)
    requires CanWorld(st, step) && Cut(st, r)
    ensures Cut(DoWorld(st, step), r)
  {
  }

  lemma StaysCut(st: State, step: Step, r: ReqId)
    requires Inv(st) && Enabled(st, step) && Cut(st, r)
    ensures Cut(Apply(st, step), r)
  {
    match step
    case Sends(s) => SendStaysCut(st, s, r);
    case Serves(s) =>
      match s {
        case Take(_) =>
        case Check(e) => CheckStaysCut(st, e, r);
        case Perform(e, ns) => PerformStaysCut(st, e, ns, r);
      }
    case World(s) => WorldStaysCut(st, s, r);
  }
}

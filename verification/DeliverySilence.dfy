/**
 What cutting a connection, asking for a deletion and destroying a node mean for the slots that are
 under way: none starts from that step on, whichever executor holds it and however the run goes on.
 */
module DeliverySilence {
  import opened Delivery

  /** A slot whose connection is cut, or whose receiver is destroyed or asked to be deleted. */
  ghost predicate Off(st: State, q: Request) {
    && q.kind.Slot?
    && (q.kind.conn !in st.connected
        || (q.node in st.nodes && (!st.nodes[q.node].alive || st.nodes[q.node].marked)))
  }

  /** Requests keep their node and what they ask for; the log only grows. */
  ghost predicate Goes(st: State, s': State) {
    && |st.reqs| <= |s'.reqs| && st.log <= s'.log
    && forall r :: 0 <= r < |st.reqs| ==> s'.reqs[r].node == st.reqs[r].node && s'.reqs[r].kind == st.reqs[r].kind
  }

  /** What is off stays off. */
  ghost predicate StaysOff(st: State, s': State) {
    forall q: Request :: Off(st, q) ==> Off(s', q)
  }

  lemma SendGoes(st: State, step: SendStep)
    requires CanSend(st, step)
    ensures Goes(st, DoSend(st, step)) && StaysOff(st, DoSend(st, step))
  {
  }

  lemma ServeGoes(st: State, step: ServeStep)
    requires CanServe(st, step)
    ensures Goes(st, DoServe(st, step)) && StaysOff(st, DoServe(st, step))
  {
  }

  lemma WorldGoes(st: State, step: WorldStep)
    requires CanWorld(st, step)
    ensures Goes(st, DoWorld(st, step)) && StaysOff(st, DoWorld(st, step))
  {
  }

  lemma StepGoes(st: State, step: Step)
    requires Enabled(st, step)
    ensures Goes(st, Apply(st, step)) && StaysOff(st, Apply(st, step))
  {
    match step
    case Sends(s) => SendGoes(st, s);
    case Serves(s) => ServeGoes(st, s);
    case World(s) => WorldGoes(st, s);
  }

  lemma {:induction false} RunGoes(st: State, steps: seq<Step>)
    requires Runs(st, steps)
    ensures Goes(st, After(st, steps))
    decreases |steps|
  {
    if steps != [] {
      StepGoes(st, steps[0]);
      RunGoes(Apply(st, steps[0]), steps[1..]);
    }
  }

  /** Nothing that was off in `st0` was started after the first `from` starts. */
  ghost predicate NoneStarted(st0: State, s': State, from: nat) {
    forall i :: from <= i < |s'.log| ==> s'.log[i].r < |s'.reqs| && !Off(st0, s'.reqs[s'.log[i].r])
  }

  lemma StepStarts(st: State, step: Step)
    requires Inv(st) && Enabled(st, step)
    ensures NoneStarted(st, Apply(st, step), |st.log|)
  {
    match step
    case Sends(_) =>
    case Serves(s) => ServeStarts(st, s);
    case World(_) =>
  }

  lemma ServeStarts(st: State, step: ServeStep)
    requires Inv(st) && CanServe(st, step)
    ensures NoneStarted(st, DoServe(st, step), |st.log|)
  {
  }

  lemma LaterStarts(st: State, s1: State, s': State)
    requires Goes(s1, s') && StaysOff(st, s1) && |st.log| <= |s1.log|
    requires NoneStarted(st, s1, |st.log|) && NoneStarted(s1, s', |s1.log|)
    ensures NoneStarted(st, s', |st.log|)
  {
    forall i | |st.log| <= i < |s'.log|
      ensures s'.log[i].r < |s'.reqs| && !Off(st, s'.reqs[s'.log[i].r])
    {
      if i < |s1.log| {
        assert s'.log[i] == s1.log[i] && !Off(st, s1.reqs[s1.log[i].r]);
      }
    }
  }

  lemma {:induction false} RunStarts(st: State, steps: seq<Step>)
    requires Inv(st) && Runs(st, steps)
    ensures NoneStarted(st, After(st, steps), |st.log|)
    decreases |steps|
  {
    if steps != [] {
      var s1 := Apply(st, steps[0]);
      StepInv(st, steps[0]);
      StepGoes(st, steps[0]);
      StepStarts(st, steps[0]);
      RunStarts(s1, steps[1..]);
      RunGoes(s1, steps[1..]);
      LaterStarts(st, s1, After(s1, steps[1..]));
    }
  }

  /** After `disconnect`, no slot of the connection is started, whether it was emitted before or is emitted later. */
  lemma DisconnectSilences(st: State, conn: ConnId, steps: seq<Step>)
    requires Reachable(st) && Runs(Apply(st, World(Disconnect(conn))), steps)
    ensures var last := After(Apply(st, World(Disconnect(conn))), steps);
      forall i :: |st.log| <= i < |last.log| ==>
        last.log[i].r < |last.reqs| && last.reqs[last.log[i].r].kind != Slot(conn)
  {
    ReachableInv(st);
    StepInv(st, World(Disconnect(conn)));
    RunStarts(Apply(st, World(Disconnect(conn))), steps);
  }

  /** After `deleteLater`, no slot of the node is started. */
  lemma DeleteLaterSilences(st: State, n: NodeId, steps: seq<Step>)
    requires Reachable(st) && Enabled(st, World(Mark(n))) && Runs(Apply(st, World(Mark(n))), steps)
    ensures NoSlotOf(n, After(Apply(st, World(Mark(n))), steps), |st.log|)
  {
    ReachableInv(st);
    StepInv(st, World(Mark(n)));
    RunStarts(Apply(st, World(Mark(n))), steps);
    NodeOff(Apply(st, World(Mark(n))), n, After(Apply(st, World(Mark(n))), steps));
  }

  /** Nor after it has been destroyed. */
  lemma DestroySilences(st: State, n: NodeId, steps: seq<Step>)
    requires Reachable(st) && Enabled(st, World(Destroy(n))) && Runs(Apply(st, World(Destroy(n))), steps)
    ensures NoSlotOf(n, After(Apply(st, World(Destroy(n))), steps), |st.log|)
  {
    ReachableInv(st);
    StepInv(st, World(Destroy(n)));
    RunStarts(Apply(st, World(Destroy(n))), steps);
    NodeOff(Apply(st, World(Destroy(n))), n, After(Apply(st, World(Destroy(n))), steps));
  }

  /** None of the starts after the first `from` is a slot of the node. */
  ghost predicate NoSlotOf(n: NodeId, last: State, from: nat) {
    forall i :: from <= i < |last.log| ==>
      last.log[i].r < |last.reqs|
      && !(last.reqs[last.log[i].r].node == n && last.reqs[last.log[i].r].kind.Slot?)
  }

  lemma NodeOff(st: State, n: NodeId, last: State)
    requires n in st.nodes && (!st.nodes[n].alive || st.nodes[n].marked) && NoneStarted(st, last, |st.log|)
    ensures NoSlotOf(n, last, |st.log|)
  {
  }

  /** `moveToThread` inside the owner: the nodes of the subtree, and no other, now belong to the target. */
  lemma MigrateMoves(st: State, e: Exec, subtree: set<NodeId>, target: Exec)
    requires CanWorld(st, Migrate(e, subtree, target))
    ensures var s' := Apply(st, World(Migrate(e, subtree, target)));
      && s'.nodes.Keys == st.nodes.Keys && s'.reqs == st.reqs && s'.queues == st.queues
      && forall n :: n in st.nodes ==>
           && s'.nodes[n].owner == (if n in subtree then target else st.nodes[n].owner)
           && s'.nodes[n].alive == st.nodes[n].alive && s'.nodes[n].marked == st.nodes[n].marked
  {
  }

  /** Whatever is under way can go on: a request in flight is posted, an idle executor serves its queue. */
  lemma RequestsGoOn(st: State, e: Exec, r: ReqId)
    requires Reachable(st)
    ensures r < |st.reqs| && st.reqs[r].stage.Flying? ==> Enabled(st, Sends(Post(r)))
    ensures e in st.running && e in st.queues && st.running[e].Nothing? && st.queues[e] != [] ==>
      Enabled(st, Serves(Take(e)))
    ensures e in st.running && st.running[e].Checking? ==> Enabled(st, Serves(Check(e)))
    ensures e in st.running && st.running[e].Ready? ==>
      st.running[e].r < |st.reqs|
      && var q := st.reqs[st.running[e].r];
         (q.kind.Move? ==> q.kind.target in st.running) ==> Enabled(st, Serves(Perform(e, {q.node})))
  {
    ReachableInv(st);
  }
}

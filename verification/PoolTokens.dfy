/** Drain tokens: what every step of the protocol keeps about who may drain a strand. */
module PoolTokens {
  import opened Strands
  import opened TaskPools
  import opened PoolProtocol

  ghost predicate SchedTokens(strands: seq<StrandData>, token: seq<Place>) {
    && |token| == |strands|
    && (forall s :: 0 <= s < |strands| ==>
         (strands[s].scheduled <==> token[s] != NoToken) && strands[s].active == strands[s].scheduled)
  }

  ghost predicate QueueTokens(queue: seq<Entry>, token: seq<Place>) {
    && (forall s :: 0 <= s < |token| && token[s].InQueue? ==> Drain(s) in queue)
    && (forall i :: 0 <= i < |queue| && queue[i].Drain? ==>
         queue[i].strand < |token| && token[queue[i].strand] == InQueue)
    && (forall i, j :: 0 <= i < j < |queue| && queue[i].Drain? ==> queue[i] != queue[j])
  }

  ghost predicate CallTokens(calls: map<Tid, Call>, token: seq<Place>) {
    && (forall s :: 0 <= s < |token| && token[s].InCall? ==>
         token[s].t in calls && calls[token[s].t].HoldsToken() && calls[token[s].t].strand == s)
    && (forall t :: t in calls && calls[t].HoldsToken() ==>
         calls[t].strand < |token| && token[calls[t].strand] == InCall(t))
  }

  ghost predicate DrainTokens(works: map<Tid, Work>, token: seq<Place>) {
    && (forall s :: 0 <= s < |token| && token[s].InDrain? ==>
         token[s].t in works && works[token[s].t].HoldsToken() && works[token[s].t].strand == s)
    && (forall t :: t in works && works[t].HoldsToken() ==>
         works[t].strand < |token| && token[works[t].strand] == InDrain(t))
  }

  /** A strand is scheduled exactly when its one token exists; `token` says where it is. */
  ghost predicate TokenInv(st: State) {
    && SchedTokens(st.strands, st.token)
    && QueueTokens(st.pool.queue, st.token)
    && CallTokens(st.calls, st.token)
    && DrainTokens(st.works, st.token)
  }

  // ------------------------------------------------------------------ one token changes hands

  lemma CallTokenMoves(calls: map<Tid, Call>, token: seq<Place>, t: Tid, c: Call, s: StrandId, p: Place)
    requires CallTokens(calls, token) && t in calls && s < |token|
    requires if calls[t].HoldsToken() then calls[t].strand == s else !token[s].InCall?
    requires if c.HoldsToken() then c.strand == s && p == InCall(t) else !p.InCall?
    ensures CallTokens(calls[t := c], token[s := p])
  {
  }

  lemma DrainTokenMoves(works: map<Tid, Work>, token: seq<Place>, t: Tid, w: Work, s: StrandId, p: Place)
    requires DrainTokens(works, token) && t in works && s < |token|
    requires if works[t].HoldsToken() then works[t].strand == s else !token[s].InDrain?
    requires if w.HoldsToken() then w.strand == s && p == InDrain(t) else !p.InDrain?
    ensures DrainTokens(works[t := w], token[s := p])
  {
  }

  lemma TokensAside(st: State, s: StrandId, p: Place)
    requires s < |st.token|
    ensures CallTokens(st.calls, st.token) && !st.token[s].InCall? && !p.InCall? ==>
              CallTokens(st.calls, st.token[s := p])
    ensures DrainTokens(st.works, st.token) && !st.token[s].InDrain? && !p.InDrain? ==>
              DrainTokens(st.works, st.token[s := p])
  {
  }

  lemma PostLockTokens(st: State, t: Tid)
    requires TokenInv(st) && CanPostLock(st, t)
    ensures TokenInv(DoPostLock(st, t))
  {
    var s := st.calls[t].strand;
    if !st.strands[s].scheduled {
      CallTokenMoves(st.calls, st.token, t, Scheduling(s), s, InCall(t));
      TokensAside(st, s, InCall(t));
    }
  }

  lemma ScheduleTokens(st: State, t: Tid)
    requires TokenInv(st) && CanSchedule(st, t)
    ensures TokenInv(DoSchedule(st, t))
  {
    var s := st.calls[t].strand;
    if st.pool.AcceptsDrain() {
      CallTokenMoves(st.calls, st.token, t, NoCall, s, InQueue);
      TokensAside(st, s, InQueue);
    } else {
      CallTokenMoves(st.calls, st.token, t, Unscheduling(s), s, InCall(t));
    }
  }

  lemma UnscheduleTokens(st: State, t: Tid)
    requires TokenInv(st) && CanUnschedule(st, t)
    ensures TokenInv(DoUnschedule(st, t))
  {
  }

  lemma TakeTokens(st: State, t: Tid)
    requires TokenInv(st) && CanTake(st, t)
    ensures TokenInv(DoTake(st, t))
  {
  }

  lemma ReadMoreTokens(st: State, t: Tid)
    requires TokenInv(st) && CanReadMore(st, t)
    ensures TokenInv(DoReadMore(st, t))
  {
    var s := st.works[t].strand;
    var w := st.works[t].(phase := Leaving);
    if st.strands[s].queue != [] {
      CallTokenMoves(st.calls, st.token, t, Scheduling(s), s, InCall(t));
      DrainTokenMoves(st.works, st.token, t, w, s, InCall(t));
    } else {
      CallTokenMoves(st.calls, st.token, t, Recycling(s), s, NoToken);
      DrainTokenMoves(st.works, st.token, t, w, s, NoToken);
    }
  }

  lemma NextTaskTokens(st: State, t: Tid)
    requires TokenInv(st) && CanNextTask(st, t)
    ensures TokenInv(DoNextTask(st, t))
  {
  }

  lemma AcquireTakeTokens(st: State, t: Tid)
    requires TokenInv(st) && CanAcquireTake(st, t)
    ensures TokenInv(DoAcquireTake(st, t))
  {
  }

  lemma ReleaseTokens(st: State, t: Tid, s: StrandId)
    requires TokenInv(st) && CanRelease(st, t, s)
    ensures TokenInv(DoRelease(st, t, s))
  {
  }

  lemma RecycleLockTokens(st: State, t: Tid)
    requires TokenInv(st) && CanRecycleLock(st, t)
    ensures TokenInv(DoRecycleLock(st, t))
  {
  }

  lemma ProbeTokens(st: State, t: Tid)
    requires TokenInv(st) && CanProbe(st, t)
    ensures TokenInv(DoProbe(st, t))
  {
  }

  lemma CallStepTokens(st: State, step: CallStep)
    requires TokenInv(st) && CanCall(st, step)
    ensures TokenInv(DoCall(st, step))
  {
    match step
    case PostLock(t) => PostLockTokens(st, t);
    case Schedule(t) => ScheduleTokens(st, t);
    case Unschedule(t) => UnscheduleTokens(st, t);
    case _ =>
  }

  lemma WorkStepTokens(st: State, step: WorkStep)
    requires TokenInv(st) && CanWork(st, step)
    ensures TokenInv(DoWork(st, step))
  {
    match step
    case Take(t) => TakeTokens(st, t);
    case _ =>
  }

  lemma DrainStepTokens(st: State, step: DrainStep)
    requires TokenInv(st) && CanDrain(st, step)
    ensures TokenInv(DoDrain(st, step))
  {
    match step
    case ReadMore(t) => ReadMoreTokens(st, t);
    case NextTask(t) => NextTaskTokens(st, t);
    case _ =>
  }

  lemma ReserveStepTokens(st: State, step: ReserveStep)
    requires TokenInv(st) && CanReserve(st, step)
    ensures TokenInv(DoReserve(st, step))
  {
    match step
    case AcquireTake(t) => AcquireTakeTokens(st, t);
    case Release(t, s) => ReleaseTokens(st, t, s);
    case RecycleLock(t) => RecycleLockTokens(st, t);
    case Probe(t) => ProbeTokens(st, t);
    case _ =>
  }

  lemma ShutdownStepTokens(st: State, step: ShutdownStep)
    requires TokenInv(st) && CanShutdown(st, step)
    ensures TokenInv(DoShutdown(st, step))
  {
  }
}

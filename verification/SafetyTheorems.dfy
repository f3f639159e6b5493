/** The safety theorems of the ActionSet protocol, over every run. */
module SafetyTheorems {
  import opened Common
  import opened ActionSets
  import opened Protocol
  import opened Safety

  lemma {:induction false} RunInv(c: Config, r: seq<World>, i: nat)
    requires Run(c, r) && i < |r|
    ensures Inv(c, r[i])
  {
    if i == 0 {
      InitInv(c, r[0]);
    } else {
      RunInv(c, r, i - 1);
      assert Linked(c, r, i);
      var s: Step :| Enabled(c, r[i - 1], s) && r[i] == Do(c, r[i - 1], s);
      StepInv(c, r[i - 1], s);
    }
  }

  // ---------------------------------------------------------------- the state only moves forward

  function Rank(o: Option<Status>): nat {
    match o
    case None => 0
    case Some(s) => match s.state
      case Pending => 1
      case Running => 2
      case Complete => 3
      case Failed => 4
  }

  lemma StepForward(c: Config, w: World, s: Step)
    requires Inv(c, w) && Enabled(c, w, s)
    ensures Rank(w.store.status) <= Rank(Do(c, w, s).store.status)
  {
    match s
    case InitStatus(h, _, _) => assert HandlerOk(c, w, w.handlers[h]);
    case Gate(h, _) => assert HandlerOk(c, w, w.handlers[h]);
    case FailWrite(h, _) =>
    case ThreadUpdate(a, outcome) =>
      assert ThreadOk(c, w.store, a, w.threads[a]);
      if outcome != Refused { WriteFrame(c, a, w.threads[a].pc, w.store.status.value); }
    case WatchUpdate(i, _) => assert WatcherOk(c, w.store, w.watchers[i]);
    case _ =>
  }

  lemma NextForward(c: Config, w: World, w': World)
    requires Inv(c, w) && Next(c, w, w')
    ensures Rank(w.store.status) <= Rank(w'.store.status)
  {
    var s: Step :| Enabled(c, w, s) && w' == Do(c, w, s);
    StepForward(c, w, s);
  }

  /** Over every run the state moves along Pending, Running, Complete, Failed, and
      Failed is never left. */
  lemma {:induction false} StateOnlyMovesForward(c: Config, r: seq<World>, i: nat, j: nat)
    requires Run(c, r) && i <= j < |r|
    ensures Rank(r[i].store.status) <= Rank(r[j].store.status)
    ensures r[i].store.status.Some? && r[i].store.status.value.state == Failed ==>
      r[j].store.status.Some? && r[j].store.status.value.state == Failed
  {
    if i < j {
      StateOnlyMovesForward(c, r, i, j - 1);
      RunInv(c, r, j - 1);
      assert Linked(c, r, j);
      NextForward(c, r[j - 1], r[j]);
    }
  }

  /** A reported completion is true: every core phase of every action is complete,
      and every action that has phases was launched. */
  lemma CompleteMeansComplete(c: Config, r: seq<World>, i: nat)
    requires Run(c, r) && i < |r|
    requires r[i].store.status.Some? && r[i].store.status.value.state == Complete
    ensures var s := r[i].store.status.value;
      |s.actions| == |c| && forall a | 0 <= a < |c| ::
        |s.actions[a].phases| == |c[a].phases| && AllComplete(s.actions[a].phases)
    ensures |r[i].threads| == |c|
    ensures forall a | 0 <= a < |c| && |c[a].phases| > 0 ::
      r[i].threads[a].pc != NotLaunched && r[i].threads[a].pc != LaunchFailed
  {
    RunInv(c, r, i);
    var w, s := r[i], r[i].store.status.value;
    forall a | 0 <= a < |c|
      ensures AllComplete(s.actions[a].phases)
      ensures |c[a].phases| > 0 ==> w.threads[a].pc != NotLaunched && w.threads[a].pc != LaunchFailed
    {
      assert !Unsettled(s.actions[a].phases) && !HasFailedPhase(s.actions[a].phases);
      assert ThreadOk(c, w.store, a, w.threads[a]);
      assert ActionWF(c[a], s.actions[a]);
      if |c[a].phases| > 0 {
        assert s.actions[a].phases[0].state == Complete && InitialAction(c[a]).phases[0].state == Pending;
      }
    }
  }

  // ---------------------------------------------------------------- at most one start

  lemma PassedStaysPassed(c: Config, w: World, w': World, h: nat)
    requires Next(c, w, w') && h < |w.handlers| && Passed(w.handlers[h])
    ensures h < |w'.handlers| && Passed(w'.handlers[h])
  {
  }

  lemma {:induction false} PassedForever(c: Config, r: seq<World>, i: nat, j: nat, h: nat)
    requires Run(c, r) && i <= j < |r| && h < |r[i].handlers| && Passed(r[i].handlers[h])
    ensures h < |r[j].handlers| && Passed(r[j].handlers[h])
  {
    if i < j {
      PassedForever(c, r, i, j - 1, h);
      assert Linked(c, r, j);
      PassedStaysPassed(c, r[j - 1], r[j], h);
    }
  }

  /** However many handlers process the ActionSet, and at whatever times, at most one
      ever gets past the Pending-to-Running gate. */
  lemma AtMostOneHandlerPasses(c: Config, r: seq<World>, i: nat, j: nat, h: nat, g: nat)
    requires Run(c, r) && i <= j < |r| && h < |r[i].handlers| && g < |r[j].handlers|
    requires Passed(r[i].handlers[h]) && Passed(r[j].handlers[g])
    ensures h == g
  {
    PassedForever(c, r, i, j, h);
    RunInv(c, r, j);
  }

  /** `e` may run before `f` in the same action: phases in index order and only after
      a success, the defer phase after every phase, rendering after successes only. */
  predicate MayPrecede(e: Event, f: Event) {
    match (e, f)
    case (PhaseRan(i, ok), PhaseRan(k, _)) => ok && i < k
    case (PhaseRan(_, _), DeferRan(_)) => true
    case (PhaseRan(_, ok), Rendered(_)) => ok
    case (DeferRan(ok), Rendered(_)) => ok
    case _ => false
  }

  /** The log of an action is strictly ordered, so nothing occurs in it twice. */
  ghost predicate Orderly(n: nat, ev: seq<Event>) {
    && (forall j, k | 0 <= j < k < |ev| :: MayPrecede(ev[j], ev[k]))
    && (forall j | 0 <= j < |ev| :: ev[j].PhaseRan? ==> ev[j].index < n)
  }

  lemma CoreIsOrderly(ac: ActionConfig, coreOk: bool, ev: seq<Event>)
    requires CoreEnded(ac, coreOk, ev)
    ensures Orderly(|ac.phases|, ev) && forall k | 0 <= k < |ev| :: ev[k].PhaseRan?
    ensures coreOk ==> forall k | 0 <= k < |ev| :: ev[k].ok
  {
    if !coreOk {
      var i: nat :| i < |ac.phases| && StoppedAt(i, ev);
    }
  }

  lemma DeferIsOrderly(ac: ActionConfig, coreOk: bool, deferOk: bool, ev: seq<Event>)
    requires DeferEnded(ac, coreOk, deferOk, ev)
    ensures Orderly(|ac.phases|, ev) && forall k | 0 <= k < |ev| :: !ev[k].Rendered?
    ensures coreOk && deferOk ==> forall k | 0 <= k < |ev| :: ev[k].ok
  {
    CoreIsOrderly(ac, coreOk, if ac.deferName.None? then ev else ev[..|ev| - 1]);
  }

  lemma RenderIsOrderly(ac: ActionConfig, ok: bool, ev: seq<Event>)
    requires RenderEnded(ac, ok, ev)
    ensures Orderly(|ac.phases|, ev)
  {
    var ev0 := ev[..|ev| - 1];
    DeferIsOrderly(ac, true, true, ev0);
    assert forall j | 0 <= j < |ev| - 1 :: ev[j] == ev0[j];
  }

  lemma LogIsOrderly(ac: ActionConfig, pc: Pc, ev: seq<Event>)
    requires LogInv(ac, pc, ev)
    ensures Orderly(|ac.phases|, ev)
  {
    match pc
    case DeferEntry(coreOk) => CoreIsOrderly(ac, coreOk, ev);
    case MarkDefer(coreOk) => CoreIsOrderly(ac, coreOk, ev);
    case ExecDefer(coreOk) => CoreIsOrderly(ac, coreOk, ev);
    case RecordDefer(coreOk, ok) => DeferIsOrderly(ac, coreOk, ok, ev);
    case Decide(coreOk, deferOk) => DeferIsOrderly(ac, coreOk, deferOk, ev);
    case Done(RunFailed(coreOk, deferOk)) => DeferIsOrderly(ac, coreOk, deferOk, ev);
    case RecordRender(arts) => RenderIsOrderly(ac, arts.Some?, ev);
    case WriteComplete(arts) => RenderIsOrderly(ac, arts.Some?, ev);
    case Done(result) => RenderIsOrderly(ac, result.Succeeded?, ev);
    case _ =>
  }

  /** Over the whole run each phase of each action is executed at most once, in
      order, and the defer phase and the rendering at most once, after them. */
  lemma EachPhaseAtMostOnce(c: Config, r: seq<World>, i: nat, a: nat)
    requires Run(c, r) && i < |r| && a < |c|
    ensures |r[i].threads| == |c|
    ensures var ev := r[i].threads[a].events;
      && Orderly(|c[a].phases|, ev)
      && forall j, k | 0 <= j < k < |ev| :: ev[j].PhaseRan? && ev[k].PhaseRan? ==> ev[j].index != ev[k].index
  {
    RunInv(c, r, i);
    assert ThreadOk(c, r[i].store, a, r[i].threads[a]);
    LogIsOrderly(c[a], r[i].threads[a].pc, r[i].threads[a].events);
  }

  /** The whole log of an action that went well. */
  function FullLog(ac: ActionConfig): seq<Event> {
    CoreLog(|ac.phases|) + (if ac.deferName.Some? then [DeferRan(true)] else []) + [Rendered(true)]
  }

  /** The log of an action whose rendering failed. */
  function UnrenderedLog(ac: ActionConfig): seq<Event> {
    CoreLog(|ac.phases|) + (if ac.deferName.Some? then [DeferRan(true)] else []) + [Rendered(false)]
  }

  lemma RenderedLog(ac: ActionConfig, ok: bool, ev: seq<Event>)
    requires RenderEnded(ac, ok, ev)
    ensures ev == if ok then FullLog(ac) else UnrenderedLog(ac)
  {
    var ev0 := ev[..|ev| - 1];
    assert ev == ev0 + [Rendered(ok)];
    if ac.deferName.Some? {
      assert ev0 == ev0[..|ev0| - 1] + [ev0[|ev0| - 1]];
      assert ev0 == CoreLog(|ac.phases|) + [DeferRan(true)];
    }
  }

  lemma FailedLog(ac: ActionConfig, coreOk: bool, deferOk: bool, ev: seq<Event>)
    requires DeferEnded(ac, coreOk, deferOk, ev)
    ensures forall k | 0 <= k < |ev| :: !ev[k].Rendered?
    ensures ac.deferName.Some? <==> exists k | 0 <= k < |ev| :: ev[k].DeferRan?
  {
    DeferIsOrderly(ac, coreOk, deferOk, ev);
    if ac.deferName.None? { CoreIsOrderly(ac, coreOk, ev); }
  }

  lemma LogEnds(ac: ActionConfig)
    ensures FullLog(ac)[|FullLog(ac)| - 1] == Rendered(true) &&
      UnrenderedLog(ac)[|UnrenderedLog(ac)| - 1] == Rendered(false)
    ensures ac.deferName.Some? <==> exists k | 0 <= k < |FullLog(ac)| :: FullLog(ac)[k].DeferRan?
    ensures ac.deferName.Some? <==> exists k | 0 <= k < |UnrenderedLog(ac)| :: UnrenderedLog(ac)[k].DeferRan?
  {
    var n := |ac.phases|;
    if ac.deferName.Some? { assert FullLog(ac)[n].DeferRan? && UnrenderedLog(ac)[n].DeferRan?; }
  }

  /** A finished goroutine has run its defer phase exactly when there is one, has
      rendered only after every phase and the defer phase succeeded, and ends in success
      exactly when its log is the full one. */
  lemma FinishedAction(c: Config, r: seq<World>, i: nat, a: nat)
    requires Run(c, r) && i < |r| && a < |c| && |r[i].threads| == |c|
    requires r[i].threads[a].pc.Done?
    ensures var ac, ev, res := c[a], r[i].threads[a].events, r[i].threads[a].pc.result;
      && (ac.deferName.Some? <==> exists k | 0 <= k < |ev| :: ev[k].DeferRan?)
      && (res.Succeeded? <==> ev == FullLog(ac))
      && (res == RenderFailed <==> ev == UnrenderedLog(ac))
      && (res.RunFailed? <==> forall k | 0 <= k < |ev| :: !ev[k].Rendered?)
  {
    RunInv(c, r, i);
    var ac, ev, res := c[a], r[i].threads[a].events, r[i].threads[a].pc.result;
    assert ThreadOk(c, r[i].store, a, r[i].threads[a]);
    LogEnds(ac);
    if res.RunFailed? {
      FailedLog(ac, res.coreOk, res.deferOk, ev);
    } else {
      RenderedLog(ac, res.Succeeded?, ev);
    }
  }

  // ---------------------------------------------------------------- shape and indices

  /** In every reachable status the phases of an action are the phases of its
      blueprint in order: some complete, then at most one in any state, then pending. */
  lemma PhasesKeepTheirShape(c: Config, r: seq<World>, i: nat, a: nat)
    requires Run(c, r) && i < |r| && a < |c|
    requires r[i].store.status.Some? && r[i].store.status.value != FailedInit()
    ensures var s := r[i].store.status.value;
      && |s.actions| == |c|
      && |s.actions[a].phases| == |c[a].phases|
      && (forall k | 0 <= k < |c[a].phases| :: s.actions[a].phases[k].name == c[a].phases[k])
      && exists k: nat :: ShapedAt(s.actions[a].phases, k)
  {
    RunInv(c, r, i);
    var s := r[i].store.status.value;
    assert Good(c, s) && ActionWF(c[a], s.actions[a]);
    PhaseOrderIsShape(s.actions[a].phases);
  }

  /** No closure ever indexes outside the object it reads, however stale its copy. */
  lemma IndicesStayInBounds(c: Config, r: seq<World>, i: nat, a: nat)
    requires Run(c, r) && i < |r| && HasCopy(c, r[i], a)
    ensures r[i].threads[a].copy.value.status.Some?
    ensures InBounds(c[a], a, r[i].threads[a].pc, r[i].threads[a].copy.value.status.value)
  {
    RunInv(c, r, i);
    assert ThreadOk(c, r[i].store, a, r[i].threads[a]);
    WriteInBounds(c, a, r[i].threads[a].pc, r[i].threads[a].copy.value.status.value);
  }

  // ---------------------------------------------------------------- resolution counters

  predicate CountsSuccess(pc: Pc) { pc.Done? && !pc.result.RunFailed? }

  predicate CountsFailure(pc: Pc) { pc == LaunchFailed || (pc.Done? && pc.result.RunFailed?) }

  predicate Counted(good: bool, pc: Pc) {
    if good then CountsSuccess(pc) else CountsFailure(pc)
  }

  /** How many actions ended in success, or in failure. */
  function Tally(ts: seq<Thread>, good: bool): nat {
    if ts == [] then 0
    else if Counted(good, ts[|ts| - 1].pc) then Tally(ts[..|ts| - 1], good) + 1
    else Tally(ts[..|ts| - 1], good)
  }

  lemma {:induction false} TallyUpdate(ts: seq<Thread>, good: bool, a: nat, t: Thread)
    requires a < |ts| && !Counted(good, ts[a].pc)
    ensures Tally(ts[a := t], good) == Tally(ts, good) + if Counted(good, t.pc) then 1 else 0
  {
    var ts' := ts[a := t];
    if a == |ts| - 1 {
      assert ts'[..|ts| - 1] == ts[..|ts| - 1];
    } else {
      assert ts'[..|ts| - 1] == ts[..|ts| - 1][a := t];
      TallyUpdate(ts[..|ts| - 1], good, a, t);
    }
  }

  lemma {:induction false} TallyFresh(ts: seq<Thread>, good: bool)
    requires forall a | 0 <= a < |ts| :: ts[a].pc == NotLaunched
    ensures Tally(ts, good) == 0
  {
    if ts != [] { TallyFresh(ts[..|ts| - 1], good); }
  }

  ghost predicate CountersExact(w: World) {
    w.successes == Tally(w.threads, true) && w.failures == Tally(w.threads, false)
  }

  lemma SetThreadCounts(w: World, a: nat, pc: Pc, copy: Option<Stored>, events: seq<Event>)
    requires a < |w.threads| && CountersExact(w)
    requires !w.threads[a].pc.Done? && w.threads[a].pc != LaunchFailed
    ensures CountersExact(SetThread(w, a, pc, copy, events))
  {
    TallyUpdate(w.threads, true, a, Thread(pc, copy, events));
    TallyUpdate(w.threads, false, a, Thread(pc, copy, events));
  }

  lemma StepCounts(c: Config, w: World, s: Step)
    requires Inv(c, w) && Enabled(c, w, s) && CountersExact(w)
    ensures CountersExact(Do(c, w, s))
  {
    match s
    case Launch(h) =>
      assert HandlerOk(c, w, w.handlers[h]);
      SetThreadCounts(w, w.handlers[h].next, Entry(0), None, w.threads[w.handlers[h].next].events);
    case LaunchFail(h, _) =>
      assert HandlerOk(c, w, w.handlers[h]);
      SetThreadCounts(w, w.handlers[h].next, LaunchFailed, None, w.threads[w.handlers[h].next].events);
    case Local(a, ok, arts) =>
      var t := w.threads[a];
      SetThreadCounts(w, a, LocalNext(c[a], t.pc, ok, arts), None, t.events + LocalEvents(c[a], t.pc, ok));
    case ThreadGet(a) => CopyCounts(w, a, Some(w.store));
    case ThreadConflict(a) => CopyCounts(w, a, None);
    case ThreadUpdate(a, outcome) =>
      SetThreadCounts(w, a, AfterWrite(w.threads[a].pc, outcome == Acked), None, w.threads[a].events);
    case ThreadRejected(a) => SetThreadCounts(w, a, AfterWrite(w.threads[a].pc, false), None, w.threads[a].events);
    case _ =>
  }

  lemma CopyCounts(w: World, a: nat, copy: Option<Stored>)
    requires a < |w.threads| && CountersExact(w) && IsWrite(w.threads[a].pc)
    ensures CountersExact(w.(threads := w.threads[a := w.threads[a].(copy := copy)]))
  {
    TallyUpdate(w.threads, true, a, w.threads[a].(copy := copy));
    TallyUpdate(w.threads, false, a, w.threads[a].(copy := copy));
  }

  /** Every action whose run was attempted bumps exactly one resolution counter, when
      it ends: at any time the two counters count the ended actions. */
  lemma {:induction false} CountersMatchActions(c: Config, r: seq<World>, i: nat)
    requires Run(c, r) && i < |r|
    ensures r[i].successes == Tally(r[i].threads, true)
    ensures r[i].failures == Tally(r[i].threads, false)
  {
    if i == 0 {
      TallyFresh(r[0].threads, true);
      TallyFresh(r[0].threads, false);
    } else {
      CountersMatchActions(c, r, i - 1);
      RunInv(c, r, i - 1);
      assert Linked(c, r, i);
      var s: Step :| Enabled(c, r[i - 1], s) && r[i] == Do(c, r[i - 1], s);
      StepCounts(c, r[i - 1], s);
    }
  }

  /** How many actions have ended, in whatever way. */
  function Ended(ts: seq<Thread>): nat {
    if ts == [] then 0
    else
      var pc := ts[|ts| - 1].pc;
      Ended(ts[..|ts| - 1]) + if pc.Done? || pc == LaunchFailed then 1 else 0
  }

  /** Nothing is counted twice. */
  lemma {:induction false} TallyAll(ts: seq<Thread>)
    ensures Tally(ts, true) + Tally(ts, false) == Ended(ts) <= |ts|
    ensures Ended(ts) == |ts| <==> forall a | 0 <= a < |ts| :: ts[a].pc.Done? || ts[a].pc == LaunchFailed
  {
    if ts != [] {
      var init := ts[..|ts| - 1];
      TallyAll(init);
      assert forall a | 0 <= a < |init| :: ts[a] == init[a];
    }
  }

  /** At any time the counters add up to the actions that have ended, and to all actions
      exactly when every one has. */
  lemma CountersAddUp(c: Config, r: seq<World>, i: nat)
    requires Run(c, r) && i < |r|
    ensures r[i].successes + r[i].failures == Ended(r[i].threads)
    ensures r[i].successes + r[i].failures == |c| <==>
      forall a | 0 <= a < |r[i].threads| :: r[i].threads[a].pc.Done? || r[i].threads[a].pc == LaunchFailed
  {
    RunInv(c, r, i);
    CountersMatchActions(c, r, i);
    TallyAll(r[i].threads);
  }

  // ---------------------------------------------------------------- what the success counter counts

  /** How many actions ended with a full log, or with one whose rendering failed. */
  function Logged(c: Config, ts: seq<Thread>, rendered: bool): nat
    requires |ts| <= |c|
  {
    if ts == [] then 0
    else
      var k := |ts| - 1;
      Logged(c, ts[..k], rendered) + if EndedWith(c[k], ts[k], rendered) then 1 else 0
  }

  predicate EndedWith(ac: ActionConfig, t: Thread, rendered: bool) {
    t.pc.Done? && t.events == if rendered then FullLog(ac) else UnrenderedLog(ac)
  }

  /** The goroutine's result says what its log says. */
  predicate ResultFits(ac: ActionConfig, t: Thread) {
    && (t.pc.Done? && t.pc.result.Succeeded? <==> EndedWith(ac, t, true))
    && (t.pc == Done(RenderFailed) <==> EndedWith(ac, t, false))
  }

  lemma {:induction false} TallyIsLogged(c: Config, ts: seq<Thread>)
    requires |ts| <= |c| && forall a | 0 <= a < |ts| :: ResultFits(c[a], ts[a])
    ensures Tally(ts, true) == Logged(c, ts, true) + Logged(c, ts, false)
    ensures Logged(c, ts, false) == 0 <==> forall a | 0 <= a < |ts| :: !EndedWith(c[a], ts[a], false)
  {
    if ts != [] {
      var init := ts[..|ts| - 1];
      assert forall a | 0 <= a < |init| :: ts[a] == init[a];
      TallyIsLogged(c, init);
      assert ResultFits(c[|ts| - 1], ts[|ts| - 1]);
    }
  }

  /** The success counter counts the full successes and, with them, the actions whose
      rendering failed: it is the number of full successes exactly if there are none of
      these. */
  lemma SuccessesCountFailedRenderings(c: Config, r: seq<World>, i: nat)
    requires Run(c, r) && i < |r|
    ensures |r[i].threads| == |c|
    ensures r[i].successes == Logged(c, r[i].threads, true) + Logged(c, r[i].threads, false)
    ensures r[i].successes == Logged(c, r[i].threads, true) <==>
      forall a | 0 <= a < |c| :: !EndedWith(c[a], r[i].threads[a], false)
  {
    RunInv(c, r, i);
    var ts := r[i].threads;
    forall a | 0 <= a < |c|
      ensures ResultFits(c[a], ts[a])
    {
      if ts[a].pc.Done? { FinishedAction(c, r, i, a); }
    }
    CountersMatchActions(c, r, i);
    TallyIsLogged(c, ts);
  }
}

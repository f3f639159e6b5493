/** What every reachable state of the protocol satisfies, whatever the API server,
    the launches and the phases do. */
module Safety {
  import opened Common
  import opened ActionSets
  import opened Protocol

  // ---------------------------------------------------------------- the invariant

  ghost predicate ActionWF(ac: ActionConfig, st: ActionStatus) {
    && st.name == ac.name
    && |st.phases| == |ac.phases|
    && (forall i | 0 <= i < |ac.phases| :: st.phases[i].name == ac.phases[i])
    && (st.deferPhase.Some? <==> ac.deferName.Some?)
    && (ac.deferName.Some? ==> st.deferPhase.value.name == ac.deferName.value)
  }

  ghost predicate HasFailedPhase(ph: seq<Phase>) {
    exists k | 0 <= k < |ph| :: ph[k].state == Failed
  }

  /** A status that belongs to the configuration, is valid and says `Failed` once a
      phase failed. */
  ghost predicate Good(c: Config, s: Status) {
    && Valid(|c|, s)
    && (forall a | 0 <= a < |c| :: ActionWF(c[a], s.actions[a]))
    && (forall a | 0 <= a < |c| :: HasFailedPhase(s.actions[a].phases) ==> s.state == Failed)
    && (s.state == Pending ==> s == InitialStatus(c))
    && (|c| == 0 ==> s.state != Failed)
  }

  ghost predicate StoreOk(c: Config, o: Option<Status>) {
    o.None? || Good(c, o.value) || (o.value == FailedInit() && |c| > 0)
  }

  /** A copy never runs ahead of the store, and agrees with it at the same version. */
  ghost predicate CopyOk(c: Config, store: Stored, cp: Stored) {
    && cp.version <= store.version
    && (cp.version == store.version ==> cp == store)
    && StoreOk(c, cp.status)
  }

  ghost predicate DoneBefore(ph: seq<Phase>, i: nat) {
    i <= |ph| && forall k | 0 <= k < i :: ph[k].state == Complete
  }

  ghost predicate PendingFrom(ph: seq<Phase>, i: nat) {
    forall k | i <= k < |ph| :: ph[k].state == Pending
  }

  /** The defer phase has the name of the last core phase and of no other one. */
  ghost predicate Collides(ac: ActionConfig) {
    var n := |ac.phases|;
    && n > 0
    && ac.deferName == Some(ac.phases[n - 1])
    && forall k | 0 <= k < n - 1 :: ac.phases[k] != ac.phases[n - 1]
  }

  /** All core phases are complete, except that a colliding defer phase may have turned
      the last one back to running. */
  ghost predicate CoreDone(ac: ActionConfig, ph: seq<Phase>) {
    && (forall k | 0 <= k < |ph| - 1 :: ph[k].state == Complete)
    && (|ph| > 0 ==>
      ph[|ph| - 1].state == Complete || (ph[|ph| - 1].state == Running && Collides(ac)))
  }

  ghost predicate DeferIs(st: ActionStatus, state: State) {
    st.deferPhase.Some? ==> st.deferPhase.value.state == state
  }

  /** What the stored status of an action says at each point of its goroutine. */
  ghost predicate ActInv(ac: ActionConfig, st: ActionStatus, pc: Pc) {
    match pc
    case NotLaunched => st == InitialAction(ac)
    case LaunchFailed => PendingFrom(st.phases, 1) && (|st.phases| > 0 ==> st.phases[0].state != Complete) &&
      DeferIs(st, Pending)
    case Entry(i) => DoneBefore(st.phases, i) && PendingFrom(st.phases, i) && DeferIs(st, Pending)
    case MarkPhase(i) => i < |ac.phases| && DoneBefore(st.phases, i) && PendingFrom(st.phases, i) &&
      DeferIs(st, Pending)
    case ExecPhase(i) => Executing(ac, st, i)
    case RecordPhase(i, _) => Executing(ac, st, i)
    case DeferEntry(coreOk) => (coreOk ==> AllComplete(st.phases)) && DeferIs(st, Pending)
    case MarkDefer(coreOk) => ac.deferName.Some? && (coreOk ==> AllComplete(st.phases)) && DeferIs(st, Pending)
    case ExecDefer(coreOk) => ac.deferName.Some? && (coreOk ==> CoreDone(ac, st.phases)) && DeferIs(st, Pending)
    case RecordDefer(coreOk, _) => ac.deferName.Some? && (coreOk ==> CoreDone(ac, st.phases)) && DeferIs(st, Pending)
    case Decide(coreOk, deferOk) => (coreOk ==> CoreDone(ac, st.phases)) && (deferOk ==> DeferIs(st, Complete))
    case RecordRender(_) => CoreDone(ac, st.phases) && DeferIs(st, Complete)
    case WriteComplete(_) => CoreDone(ac, st.phases) && DeferIs(st, Complete)
    case Done(RunFailed(_, _)) => true
    case Done(_) => CoreDone(ac, st.phases) && DeferIs(st, Complete)
  }

  ghost predicate Executing(ac: ActionConfig, st: ActionStatus, i: nat) {
    && i < |ac.phases| == |st.phases|
    && DoneBefore(st.phases, i)
    && PendingFrom(st.phases, i + 1)
    && (st.phases[i].state == Pending || st.phases[i].state == Running)
    && DeferIs(st, Pending)
  }

  // ---------------------------------------------------------------- the execution log

  function CoreLog(i: nat): (r: seq<Event>)
    ensures |r| == i && forall k | 0 <= k < i :: r[k] == PhaseRan(k, true)
  {
    seq(i, k requires 0 <= k < i => PhaseRan(k, true))
  }

  /** The core phases stopped early: phase `i` was not run, or failed, or its result
      could not be recorded. */
  ghost predicate CoreStopped(n: nat, ev: seq<Event>) {
    exists i: nat :: i < n && StoppedAt(i, ev)
  }

  ghost predicate StoppedAt(i: nat, ev: seq<Event>) {
    ev == CoreLog(i) || ev == CoreLog(i) + [PhaseRan(i, false)] || ev == CoreLog(i + 1)
  }

  ghost predicate CoreEnded(ac: ActionConfig, coreOk: bool, ev: seq<Event>) {
    if coreOk then ev == CoreLog(|ac.phases|) else CoreStopped(|ac.phases|, ev)
  }

  ghost predicate DeferEnded(ac: ActionConfig, coreOk: bool, deferOk: bool, ev: seq<Event>) {
    if ac.deferName.None? then deferOk && CoreEnded(ac, coreOk, ev)
    else
      && |ev| > 0 && ev[|ev| - 1].DeferRan?
      && (deferOk ==> ev[|ev| - 1].ok)
      && CoreEnded(ac, coreOk, ev[..|ev| - 1])
  }

  ghost predicate RenderEnded(ac: ActionConfig, ok: bool, ev: seq<Event>) {
    |ev| > 0 && ev[|ev| - 1] == Rendered(ok) && DeferEnded(ac, true, true, ev[..|ev| - 1])
  }

  ghost predicate LogInv(ac: ActionConfig, pc: Pc, ev: seq<Event>) {
    match pc
    case NotLaunched => ev == []
    case LaunchFailed => ev == []
    case Entry(i) => i <= |ac.phases| && ev == CoreLog(i)
    case MarkPhase(i) => i < |ac.phases| && ev == CoreLog(i)
    case ExecPhase(i) => i < |ac.phases| && ev == CoreLog(i)
    case RecordPhase(i, ok) =>
      i < |ac.phases| &&
      if ok then ev == CoreLog(i + 1) else ev == CoreLog(i) || ev == CoreLog(i) + [PhaseRan(i, false)]
    case DeferEntry(coreOk) => CoreEnded(ac, coreOk, ev)
    case MarkDefer(coreOk) => ac.deferName.Some? && CoreEnded(ac, coreOk, ev)
    case ExecDefer(coreOk) => ac.deferName.Some? && CoreEnded(ac, coreOk, ev)
    case RecordDefer(coreOk, ok) => ac.deferName.Some? && DeferEnded(ac, coreOk, ok, ev)
    case Decide(coreOk, deferOk) => DeferEnded(ac, coreOk, deferOk, ev)
    case RecordRender(arts) => RenderEnded(ac, arts.Some?, ev)
    case WriteComplete(arts) => RenderEnded(ac, arts.Some?, ev)
    case Done(Succeeded(_)) => RenderEnded(ac, true, ev)
    case Done(RenderFailed) => RenderEnded(ac, false, ev)
    case Done(RunFailed(coreOk, deferOk)) => !(coreOk && deferOk) && DeferEnded(ac, coreOk, deferOk, ev)
  }

  // ---------------------------------------------------------------- per process

  predicate Passed(h: Handler) {
    h.HLaunch? || h.HFail? || h == HDone(true)
  }

  ghost predicate UnlaunchedFrom(w: World, k: nat) {
    forall a | k <= a < |w.threads| :: w.threads[a].pc == NotLaunched
  }

  function Started(c: Config): Status {
    InitialStatus(c).(state := Running)
  }

  ghost predicate HandlerOk(c: Config, w: World, h: Handler) {
    match h
    case HObserved(seen) => CopyOk(c, w.store, seen)
    case HGate(seen) => CopyOk(c, w.store, seen) && seen.status == Some(InitialStatus(c))
    case HLaunch(seen, next) =>
      CopyOk(c, w.store, seen) && seen.status == Some(Started(c)) && next <= |c| && UnlaunchedFrom(w, next)
    case HFail(seen, write, at) =>
      && CopyOk(c, w.store, seen) && seen.status == Some(Started(c))
      && at < |c| && UnlaunchedFrom(w, at + 1)
      && at < |w.threads|
      && (w.threads[at].pc == LaunchFailed || w.threads[at].pc == NotLaunched)
      && write == LaunchFailure(Started(c), at, w.threads[at].pc == LaunchFailed)
    case _ => true
  }

  /** A status a goroutine may hold: one written after the launch. */
  ghost predicate HeldOk(c: Config, a: nat, o: Option<Status>, pc: Pc)
    requires a < |c|
  {
    o.Some? && Good(c, o.value) && o.value.state != Pending && ActInv(c[a], o.value.actions[a], pc)
  }

  ghost predicate ThreadOk(c: Config, store: Stored, a: nat, t: Thread)
    requires a < |c|
  {
    && LogInv(c[a], t.pc, t.events)
    && (t.pc != NotLaunched ==> HeldOk(c, a, store.status, t.pc))
    && (t.pc == NotLaunched && store.status.Some? && Good(c, store.status.value) ==>
      store.status.value.actions[a] == InitialAction(c[a]))
    && (t.copy.Some? ==> IsWrite(t.pc) && CopyOk(c, store, t.copy.value) && HeldOk(c, a, t.copy.value.status, t.pc))
  }

  ghost predicate WatcherOk(c: Config, store: Stored, x: Watcher) {
    x.WActive? ==>
      && |c| == 0
      && store.status.Some? && store.status.value.state != Pending
      && (x.copy.Some? ==> CopyOk(c, store, x.copy.value) && x.copy.value.status.Some?)
  }

  /** The stored status was initialised and has left `Pending`. */
  ghost predicate StartedOk(c: Config, store: Stored) {
    store.status.Some? && Good(c, store.status.value) && store.status.value.state != Pending
  }

  ghost predicate Inv(c: Config, w: World) {
    && |w.threads| == |c|
    && StoreOk(c, w.store.status)
    && (forall h | 0 <= h < |w.handlers| :: HandlerOk(c, w, w.handlers[h]))
    && (forall a | 0 <= a < |c| :: ThreadOk(c, w.store, a, w.threads[a]))
    && (forall i | 0 <= i < |w.watchers| :: WatcherOk(c, w.store, w.watchers[i]))
    && (forall h, g | 0 <= h < |w.handlers| && 0 <= g < |w.handlers| ::
      Passed(w.handlers[h]) && Passed(w.handlers[g]) ==> h == g)
    && (forall h | 0 <= h < |w.handlers| :: Passed(w.handlers[h]) ==> StartedOk(c, w.store))
  }

  // ---------------------------------------------------------------- facts about one write

  lemma InitialIsGood(c: Config)
    ensures Good(c, InitialStatus(c)) && Good(c, Started(c))
    ensures forall a | 0 <= a < |c| :: InitialStatus(c).actions[a] == InitialAction(c[a])
  {
  }

  lemma InitialActInv(ac: ActionConfig)
    ensures ActInv(ac, InitialAction(ac), Entry(0)) && ActInv(ac, InitialAction(ac), LaunchFailed)
  {
  }

  lemma LaunchFailureIsGood(c: Config, k: nat, reachedRun: bool)
    requires k < |c|
    ensures Good(c, LaunchFailure(Started(c), k, reachedRun))
  {
    InitialIsGood(c);
    var s := LaunchFailure(Started(c), k, reachedRun);
    assert forall a | 0 <= a < |c| && a != k :: s.actions[a] == InitialAction(c[a]);
  }

  /** Every index used by a goroutine's closure is in bounds. */
  lemma WriteInBounds(c: Config, a: nat, pc: Pc, s: Status)
    requires a < |c| && IsWrite(pc) && Good(c, s) && ActInv(c[a], s.actions[a], pc)
    ensures InBounds(c[a], a, pc, s)
  {
  }

  /** When the validator lets the mark of core phase `i` through, no other phase has
      that name. */
  lemma MarkIsPrecise(ac: ActionConfig, st: ActionStatus, i: nat)
    requires ActionWF(ac, st) && ActInv(ac, st, MarkPhase(i))
    requires PhaseOrderOk(MarkNamed(st.phases, ac.phases[i]))
    ensures MarkNamed(st.phases, ac.phases[i]) == st.phases[i := st.phases[i].(state := Running)]
  {
    var ph, ph' := st.phases, MarkNamed(st.phases, ac.phases[i]);
    assert ph'[i].state == Running;
    assert forall k | 0 <= k < |ph| && k != i :: ph'[k].state != Running;
  }

  /** The mark of the defer phase leaves finished core phases alone, unless it collides
      with the last one: the validator rejects every other mark. */
  lemma DeferMarkKeepsCore(ac: ActionConfig, st: ActionStatus)
    requires ActionWF(ac, st) && ActInv(ac, st, MarkDefer(true))
    requires PhaseOrderOk(MarkNamed(st.phases, ac.deferName.value))
    ensures CoreDone(ac, MarkNamed(st.phases, ac.deferName.value))
  {
    var ph, ph' := st.phases, MarkNamed(st.phases, ac.deferName.value);
    forall k | 0 <= k < |ph'| - 1
      ensures ph'[k].state == Complete
    {
      assert ph[k + 1].state == Complete;
    }
    var z := |ph| - 1;
    if z >= 0 && ph'[z].state == Running {
      assert ac.phases[z] == ac.deferName.value;
      forall k | 0 <= k < z
        ensures ac.phases[k] != ac.phases[z]
      {
        assert ph'[k].state == Complete;
      }
    }
  }

  ghost predicate KeepsAction(c: Config, a: nat, pc: Pc, s: Status)
    requires a < |c| && IsWrite(pc) && InBounds(c[a], a, pc, s)
  {
    var s' := Write(c[a], a, pc, s);
    && |s'.actions| == |s.actions|
    && ActionWF(c[a], s'.actions[a])
    && ActInv(c[a], s'.actions[a], AfterWrite(pc, true))
    && ActInv(c[a], s'.actions[a], AfterWrite(pc, false))
    && (HasFailedPhase(s'.actions[a].phases) ==> s'.state == Failed)
  }

  ghost predicate WriteReady(c: Config, a: nat, pc: Pc, s: Status) {
    && a < |c| && IsWrite(pc) && Good(c, s) && ActInv(c[a], s.actions[a], pc)
    && InBounds(c[a], a, pc, s) && Valid(|c|, Write(c[a], a, pc, s))
  }

  lemma MarkPhaseKeeps(c: Config, a: nat, pc: Pc, s: Status)
    requires WriteReady(c, a, pc, s) && pc.MarkPhase?
    ensures KeepsAction(c, a, pc, s)
  {
    var ac, st, s' := c[a], s.actions[a], Write(c[a], a, pc, s);
    assert PhaseOrderOk(s'.actions[a].phases);
    MarkIsPrecise(ac, st, pc.i);
    assert s'.actions[a].phases == st.phases[pc.i := st.phases[pc.i].(state := Running)];
    assert !HasFailedPhase(s'.actions[a].phases);
  }

  lemma RecordPhaseKeeps(c: Config, a: nat, pc: Pc, s: Status)
    requires WriteReady(c, a, pc, s) && pc.RecordPhase?
    ensures KeepsAction(c, a, pc, s)
  {
    var st, s' := s.actions[a], Write(c[a], a, pc, s);
    assert s'.actions[a].phases == st.phases[pc.i := st.phases[pc.i].(state := if pc.ok then Complete else Failed)];
    assert s'.actions[a].deferPhase == st.deferPhase;
    if pc.ok { assert !HasFailedPhase(s'.actions[a].phases); }
  }

  lemma MarkDeferKeeps(c: Config, a: nat, pc: Pc, s: Status)
    requires WriteReady(c, a, pc, s) && pc.MarkDefer?
    ensures KeepsAction(c, a, pc, s)
  {
    var ac, st, s' := c[a], s.actions[a], Write(c[a], a, pc, s);
    if pc.coreOk { DeferMarkKeepsCore(ac, st); }
    if HasFailedPhase(s'.actions[a].phases) {
      var k :| 0 <= k < |st.phases| && s'.actions[a].phases[k].state == Failed;
      assert st.phases[k].state == Failed;
    }
  }

  lemma OtherWriteKeeps(c: Config, a: nat, pc: Pc, s: Status)
    requires WriteReady(c, a, pc, s) && (pc.RecordDefer? || pc.RecordRender? || pc.WriteComplete?)
    ensures KeepsAction(c, a, pc, s)
  {
    var st, s' := s.actions[a], Write(c[a], a, pc, s);
    assert s'.actions[a].phases == st.phases;
    assert s'.state == Failed || s'.state == s.state || !HasFailedPhase(st.phases);
  }

  /** A write keeps the facts about its own action, whether or not it is acknowledged. */
  lemma WriteKeepsAction(c: Config, a: nat, pc: Pc, s: Status)
    requires WriteReady(c, a, pc, s)
    ensures KeepsAction(c, a, pc, s)
  {
    if pc.MarkPhase? { MarkPhaseKeeps(c, a, pc, s); }
    else if pc.RecordPhase? { RecordPhaseKeeps(c, a, pc, s); }
    else if pc.MarkDefer? { MarkDeferKeeps(c, a, pc, s); }
    else { OtherWriteKeeps(c, a, pc, s); }
  }

  lemma WriteFrame(c: Config, a: nat, pc: Pc, s: Status)
    requires a < |c| && IsWrite(pc) && Good(c, s)
    requires InBounds(c[a], a, pc, s)
    ensures var s' := Write(c[a], a, pc, s);
      && |s'.actions| == |c|
      && (forall b | 0 <= b < |c| && b != a :: s'.actions[b] == s.actions[b])
      && (s'.state == s.state || s'.state == Failed || (s'.state == Complete && s.state != Failed))
  {
  }

  lemma WriteIsGood(c: Config, a: nat, pc: Pc, s: Status)
    requires WriteReady(c, a, pc, s) && s.state != Pending
    ensures Good(c, Write(c[a], a, pc, s)) && Write(c[a], a, pc, s).state != Pending
  {
    WriteFrame(c, a, pc, s);
    WriteKeepsAction(c, a, pc, s);
  }

  // ---------------------------------------------------------------- steps of a handler

  lemma InitInv(c: Config, w: World)
    requires Init(c, w)
    ensures Inv(c, w)
  {
  }

  /** A step of a handler that leaves the store and the threads alone. */
  lemma HandlerOnly(c: Config, w: World, h: nat, h': Handler)
    requires Inv(c, w) && h < |w.handlers|
    requires HandlerOk(c, w, h') && (Passed(h') ==> Passed(w.handlers[h]))
    ensures Inv(c, w.(handlers := w.handlers[h := h']))
  {
    var w' := w.(handlers := w.handlers[h := h']);
    forall g | 0 <= g < |w'.handlers|
      ensures HandlerOk(c, w', w'.handlers[g])
    {
      assert HandlerOk(c, w, w'.handlers[g]);
    }
  }

  /** Another goroutine does not notice a write that leaves its action alone. */
  lemma WriteKeepsOthers(c: Config, store: Stored, s': Status, b: nat, t: Thread)
    requires b < |c| && ThreadOk(c, store, b, t)
    requires store.status.Some? && Good(c, store.status.value) && Good(c, s') && s'.state != Pending
    requires s'.actions[b] == store.status.value.actions[b]
    ensures ThreadOk(c, Put(store, s'), b, t)
  {
  }

  /** A handler only looks at its copy and at the goroutines it has not launched. */
  lemma HandlerFrame(c: Config, w: World, w': World, h: Handler)
    requires HandlerOk(c, w, h) && w.store.version <= w'.store.version
    requires w'.store.version == w.store.version ==> w'.store == w.store
    requires |w'.threads| == |w.threads|
    requires forall a | 0 <= a < |w.threads| && (w.threads[a].pc == NotLaunched || w.threads[a].pc == LaunchFailed) ::
      w'.threads[a].pc == w.threads[a].pc
    ensures HandlerOk(c, w', h)
  {
  }

  /** Replacing the stored status by a good one that only changes action `a`, whose
      goroutine moves to `t'`. */
  lemma StoreWrite(c: Config, w: World, s': Status, a: nat, t': Thread, successes: nat, failures: nat)
    requires Inv(c, w) && StartedOk(c, w.store) && Good(c, s') && s'.state != Pending
    requires a < |c| && w.threads[a].pc != NotLaunched && w.threads[a].pc != LaunchFailed
    requires forall b | 0 <= b < |c| && b != a :: s'.actions[b] == w.store.status.value.actions[b]
    requires ThreadOk(c, Put(w.store, s'), a, t')
    ensures Inv(c, w.(store := Put(w.store, s'), threads := w.threads[a := t'], successes := successes,
      failures := failures))
  {
    var w' := w.(store := Put(w.store, s'), threads := w.threads[a := t'], successes := successes,
      failures := failures);
    forall b | 0 <= b < |c|
      ensures ThreadOk(c, w'.store, b, w'.threads[b])
    {
      if b != a { WriteKeepsOthers(c, w.store, s', b, w.threads[b]); }
    }
    forall g | 0 <= g < |w'.handlers|
      ensures HandlerOk(c, w', w'.handlers[g])
    {
      HandlerFrame(c, w, w', w.handlers[g]);
    }
  }

  lemma StepInitStatus(c: Config, w: World, s: Step)
    requires Inv(c, w) && s.InitStatus? && Enabled(c, w, s)
    ensures Inv(c, Do(c, w, s))
  {
    var w' := Do(c, w, s);
    HandlerOnly(c, w, s.h, HGet);
    if s.outcome != Refused {
      InitialIsGood(c);
      assert HandlerOk(c, w, w.handlers[s.h]);
      assert w.store.status.None?;
      forall g | 0 <= g < |w'.handlers|
        ensures HandlerOk(c, w', w'.handlers[g])
      {
        assert HandlerOk(c, w, w.handlers[g]);
      }
      forall b | 0 <= b < |c|
        ensures ThreadOk(c, w'.store, b, w'.threads[b])
      {
        assert ThreadOk(c, w.store, b, w.threads[b]);
      }
    }
  }

  lemma StepGate(c: Config, w: World, s: Step)
    requires Inv(c, w) && s.Gate? && Enabled(c, w, s)
    ensures Inv(c, Do(c, w, s))
  {
    if s.outcome == Refused {
      HandlerOnly(c, w, s.h, HDone(false));
    } else {
      var w' := Do(c, w, s);
      InitialIsGood(c);
      assert HandlerOk(c, w, w.handlers[s.h]);
      assert w.store.status == Some(InitialStatus(c));
      forall b | 0 <= b < |c|
        ensures ThreadOk(c, w'.store, b, w'.threads[b])
      {
        assert ThreadOk(c, w.store, b, w.threads[b]);
      }
      forall g | 0 <= g < |w'.handlers|
        ensures HandlerOk(c, w', w'.handlers[g])
      {
        assert HandlerOk(c, w, w.handlers[g]);
      }
    }
  }

  /** The launching handler `h` decides about the next action. */
  lemma LaunchSlot(c: Config, w: World, h: nat, t': Thread, h': Handler, failures: nat)
    requires Inv(c, w) && h < |w.handlers| && w.handlers[h].HLaunch? && w.handlers[h].next < |c|
    requires ThreadOk(c, w.store, w.handlers[h].next, t') && t'.copy.None?
    requires Passed(h')
    requires HandlerOk(c, w.(threads := w.threads[w.handlers[h].next := t']), h')
    ensures Inv(c, w.(threads := w.threads[w.handlers[h].next := t'], handlers := w.handlers[h := h'],
      failures := failures))
  {
    var k := w.handlers[h].next;
    var w' := w.(threads := w.threads[k := t'], handlers := w.handlers[h := h'], failures := failures);
    forall g | 0 <= g < |w'.handlers|
      ensures HandlerOk(c, w', w'.handlers[g])
    {
      assert HandlerOk(c, w, w.handlers[g]);
      assert g != h ==> !Passed(w.handlers[g]);
    }
  }

  lemma StepLaunch(c: Config, w: World, s: Step)
    requires Inv(c, w) && s.Launch? && Enabled(c, w, s)
    ensures Inv(c, Do(c, w, s))
  {
    var w', k := Do(c, w, s), w.handlers[s.h].next;
    assert HandlerOk(c, w, w.handlers[s.h]);
    assert ThreadOk(c, w.store, k, w.threads[k]);
    InitialActInv(c[k]);
    LaunchSlot(c, w, s.h, w'.threads[k], w'.handlers[s.h], w.failures);
  }

  lemma StepLaunchFail(c: Config, w: World, s: Step)
    requires Inv(c, w) && s.LaunchFail? && Enabled(c, w, s)
    ensures Inv(c, Do(c, w, s))
  {
    var w', k := Do(c, w, s), w.handlers[s.h].next;
    assert HandlerOk(c, w, w.handlers[s.h]);
    assert ThreadOk(c, w.store, k, w.threads[k]);
    if s.reachedRun {
      InitialActInv(c[k]);
      LaunchSlot(c, w, s.h, w'.threads[k], w'.handlers[s.h], w'.failures);
    } else {
      HandlerOnly(c, w, s.h, w'.handlers[s.h]);
    }
  }

  lemma FailWriteThread(c: Config, store: Stored, k: nat, b: nat, t: Thread)
    requires k < |c| && b < |c| && store.status == Some(Started(c)) && ThreadOk(c, store, b, t)
    requires b == k ==> t.copy.None? && (t.pc == NotLaunched || t.pc == LaunchFailed)
    ensures ThreadOk(c, Put(store, LaunchFailure(Started(c), k, t.pc == LaunchFailed)), k, t) || b != k
    ensures forall failed: bool :: b != k ==> ThreadOk(c, Put(store, LaunchFailure(Started(c), k, failed)), b, t)
  {
    InitialIsGood(c);
    InitialActInv(c[k]);
    LaunchFailureIsGood(c, k, true);
    LaunchFailureIsGood(c, k, false);
  }

  lemma FailWriteApplied(c: Config, w: World, h: nat)
    requires Inv(c, w) && h < |w.handlers| && w.handlers[h].HFail? && w.handlers[h].seen == w.store
    ensures Inv(c, w.(store := Put(w.store, w.handlers[h].write), handlers := w.handlers[h := HDone(true)]))
  {
    var w' := w.(store := Put(w.store, w.handlers[h].write), handlers := w.handlers[h := HDone(true)]);
    var k := w.handlers[h].at;
    assert HandlerOk(c, w, w.handlers[h]);
    LaunchFailureIsGood(c, k, w.threads[k].pc == LaunchFailed);
    forall b | 0 <= b < |c|
      ensures ThreadOk(c, w'.store, b, w'.threads[b])
    {
      assert ThreadOk(c, w.store, b, w.threads[b]);
      FailWriteThread(c, w.store, k, b, w.threads[b]);
    }
    forall g | 0 <= g < |w'.handlers|
      ensures HandlerOk(c, w', w'.handlers[g])
    {
      if g != h { HandlerFrame(c, w, w', w.handlers[g]); }
    }
  }

  lemma StepFailWrite(c: Config, w: World, s: Step)
    requires Inv(c, w) && s.FailWrite? && Enabled(c, w, s)
    ensures Inv(c, Do(c, w, s))
  {
    if s.outcome == Refused {
      HandlerOnly(c, w, s.h, HDone(true));
    } else {
      assert HandlerOk(c, w, w.handlers[s.h]);
      FailWriteApplied(c, w, s.h);
    }
  }

  lemma StepHandler(c: Config, w: World, s: Step)
    requires Inv(c, w) && Enabled(c, w, s)
    requires s.Observe? || s.SkipInit? || s.Fetch? || s.LaunchEnd?
    ensures Inv(c, Do(c, w, s))
  {
    match s
    case Observe(h) => HandlerOnly(c, w, h, HObserved(w.store));
    case SkipInit(h) => HandlerOnly(c, w, h, HGet);
    case Fetch(h, fetched) => HandlerOnly(c, w, h, if fetched then AfterFetch(c, w.store) else HDone(false));
    case LaunchEnd(h) => HandlerOnly(c, w, h, HDone(true));
    case _ =>
  }

  // ---------------------------------------------------------------- steps of a goroutine

  /** A step of a goroutine that leaves the store alone. */
  lemma ThreadOnly(c: Config, w: World, a: nat, t': Thread, successes: nat, failures: nat)
    requires Inv(c, w) && a < |c| && ThreadOk(c, w.store, a, t')
    requires w.threads[a].pc != NotLaunched && w.threads[a].pc != LaunchFailed
    ensures Inv(c, w.(threads := w.threads[a := t'], successes := successes, failures := failures))
  {
    var w' := w.(threads := w.threads[a := t'], successes := successes, failures := failures);
    forall g | 0 <= g < |w'.handlers|
      ensures HandlerOk(c, w', w'.handlers[g])
    {
      assert HandlerOk(c, w, w.handlers[g]);
    }
  }

  lemma LocalKeepsAction(ac: ActionConfig, st: ActionStatus, pc: Pc, ok: bool, arts: Artifacts)
    requires IsLocal(pc) && ActionWF(ac, st) && ActInv(ac, st, pc)
    ensures ActInv(ac, st, LocalNext(ac, pc, ok, arts))
  {
  }

  lemma LocalKeepsLog(ac: ActionConfig, pc: Pc, ev: seq<Event>, ok: bool, arts: Artifacts)
    requires IsLocal(pc) && LogInv(ac, pc, ev)
    ensures LogInv(ac, LocalNext(ac, pc, ok, arts), ev + LocalEvents(ac, pc, ok))
  {
    var more := LocalEvents(ac, pc, ok);
    if more == [] {
      assert ev + more == ev;
    } else {
      assert (ev + more)[..|ev + more| - 1] == ev;
      if pc.ExecPhase? && ok { assert ev + more == CoreLog(pc.i + 1); }
    }
  }

  lemma WriteKeepsLog(ac: ActionConfig, pc: Pc, ev: seq<Event>, acked: bool)
    requires IsWrite(pc) && LogInv(ac, pc, ev)
    ensures LogInv(ac, AfterWrite(pc, acked), ev)
  {
    if pc.RecordPhase? && !(acked && pc.ok) { assert StoppedAt(pc.i, ev); }
  }

  lemma StepLocal(c: Config, w: World, s: Step)
    requires Inv(c, w) && s.Local? && Enabled(c, w, s)
    ensures Inv(c, Do(c, w, s))
  {
    var t, w' := w.threads[s.a], Do(c, w, s);
    assert ThreadOk(c, w.store, s.a, t);
    LocalKeepsAction(c[s.a], w.store.status.value.actions[s.a], t.pc, s.ok, s.arts);
    LocalKeepsLog(c[s.a], t.pc, t.events, s.ok, s.arts);
    ThreadOnly(c, w, s.a, w'.threads[s.a], w'.successes, w'.failures);
  }

  /** The reconcile ended without an effect and with an error. */
  lemma UnwrittenKeepsAction(ac: ActionConfig, st: ActionStatus, pc: Pc)
    requires IsWrite(pc) && ActionWF(ac, st) && ActInv(ac, st, pc)
    ensures ActInv(ac, st, AfterWrite(pc, false))
  {
  }

  lemma StepUnwritten(c: Config, w: World, s: Step)
    requires Inv(c, w) && Enabled(c, w, s)
    requires s.ThreadRejected? || (s.ThreadUpdate? && s.outcome == Refused)
    ensures Inv(c, Do(c, w, s))
  {
    var t, w' := w.threads[s.a], Do(c, w, s);
    assert ThreadOk(c, w.store, s.a, t);
    UnwrittenKeepsAction(c[s.a], w.store.status.value.actions[s.a], t.pc);
    WriteKeepsLog(c[s.a], t.pc, t.events, false);
    ThreadOnly(c, w, s.a, w'.threads[s.a], w'.successes, w'.failures);
  }

  /** A write that goes through acts on the stored status itself. */
  lemma WriteApplied(c: Config, w: World, a: nat, acked: bool, successes: nat, failures: nat)
    requires Inv(c, w) && HasCopy(c, w, a) && w.threads[a].copy.value.version == w.store.version
    requires Accepts(c, a, w.threads[a].pc, w.threads[a].copy.value)
    ensures w.threads[a].copy.value == w.store && InBounds(c[a], a, w.threads[a].pc, w.store.status.value)
    ensures Inv(c, w.(store := Put(w.store, Write(c[a], a, w.threads[a].pc, w.store.status.value)),
                      threads := w.threads[a := Thread(AfterWrite(w.threads[a].pc, acked), None, w.threads[a].events)],
                      successes := successes, failures := failures))
  {
    var t := w.threads[a];
    assert ThreadOk(c, w.store, a, t);
    var v := w.store.status.value;
    WriteInBounds(c, a, t.pc, v);
    WriteFrame(c, a, t.pc, v);
    WriteIsGood(c, a, t.pc, v);
    WriteKeepsAction(c, a, t.pc, v);
    WriteKeepsLog(c[a], t.pc, t.events, acked);
    StoreWrite(c, w, Write(c[a], a, t.pc, v), a, Thread(AfterWrite(t.pc, acked), None, t.events), successes, failures);
  }

  lemma StepWritten(c: Config, w: World, s: Step)
    requires Inv(c, w) && Enabled(c, w, s) && s.ThreadUpdate? && s.outcome != Refused
    ensures Inv(c, Do(c, w, s))
  {
    var w' := Do(c, w, s);
    WriteApplied(c, w, s.a, s.outcome == Acked, w'.successes, w'.failures);
  }

  lemma StepCopy(c: Config, w: World, s: Step)
    requires Inv(c, w) && Enabled(c, w, s) && (s.ThreadGet? || s.ThreadConflict?)
    ensures Inv(c, Do(c, w, s))
  {
    var w' := Do(c, w, s);
    assert ThreadOk(c, w.store, s.a, w.threads[s.a]);
    ThreadOnly(c, w, s.a, w'.threads[s.a], w.successes, w.failures);
  }

  // ---------------------------------------------------------------- the other writers

  lemma WatcherOnly(c: Config, w: World, i: nat, x: Watcher)
    requires Inv(c, w) && i < |w.watchers| && WatcherOk(c, w.store, x)
    ensures Inv(c, w.(watchers := w.watchers[i := x]))
  {
    var w' := w.(watchers := w.watchers[i := x]);
    forall g | 0 <= g < |w'.handlers|
      ensures HandlerOk(c, w', w'.handlers[g])
    {
      HandlerFrame(c, w, w', w.handlers[g]);
    }
  }

  lemma WatcherWrites(c: Config, w: World, i: nat)
    requires Inv(c, w) && i < |w.watchers| && w.watchers[i].WActive? && w.watchers[i].copy == Some(w.store)
    ensures w.store.status.Some?
    ensures Inv(c, w.(store := Put(w.store, ForceComplete(w.store.status.value)), watchers := w.watchers[i := WDone]))
  {
    assert WatcherOk(c, w.store, w.watchers[i]);
    var w' := w.(store := Put(w.store, ForceComplete(w.store.status.value)), watchers := w.watchers[i := WDone]);
    forall g | 0 <= g < |w'.handlers|
      ensures HandlerOk(c, w', w'.handlers[g])
    {
      HandlerFrame(c, w, w', w.handlers[g]);
    }
  }

  lemma StepWatcher(c: Config, w: World, s: Step)
    requires Inv(c, w) && Enabled(c, w, s)
    requires s.WatchEvent? || s.WatchGet? || s.WatchConflict? || s.WatchUpdate?
    ensures Inv(c, Do(c, w, s))
  {
    assert WatcherOk(c, w.store, w.watchers[s.w]);
    if s.WatchUpdate? && s.outcome != Refused {
      WatcherWrites(c, w, s.w);
    } else {
      WatcherOnly(c, w, s.w, Do(c, w, s).watchers[s.w]);
    }
  }

  lemma StepTouch(c: Config, w: World)
    requires Inv(c, w) && Enabled(c, w, Touch)
    ensures Inv(c, Do(c, w, Touch))
  {
    var w' := Do(c, w, Touch);
    forall b | 0 <= b < |c|
      ensures ThreadOk(c, w'.store, b, w'.threads[b])
    {
      assert ThreadOk(c, w.store, b, w.threads[b]);
    }
    forall g | 0 <= g < |w'.handlers|
      ensures HandlerOk(c, w', w'.handlers[g])
    {
      assert HandlerOk(c, w, w.handlers[g]);
    }
  }

  lemma StepInv(c: Config, w: World, s: Step)
    requires Inv(c, w) && Enabled(c, w, s)
    ensures Inv(c, Do(c, w, s))
  {
    match s
    case InitStatus(_, _, _) => StepInitStatus(c, w, s);
    case Gate(_, _) => StepGate(c, w, s);
    case Launch(_) => StepLaunch(c, w, s);
    case LaunchFail(_, _) => StepLaunchFail(c, w, s);
    case FailWrite(_, _) => StepFailWrite(c, w, s);
    case Local(_, _, _) => StepLocal(c, w, s);
    case ThreadUpdate(_, outcome) => if outcome == Refused { StepUnwritten(c, w, s); } else { StepWritten(c, w, s); }
    case ThreadRejected(_) => StepUnwritten(c, w, s);
    case ThreadGet(_) => StepCopy(c, w, s);
    case ThreadConflict(_) => StepCopy(c, w, s);
    case WatchEvent(_) => StepWatcher(c, w, s);
    case WatchGet(_) => StepWatcher(c, w, s);
    case WatchConflict(_) => StepWatcher(c, w, s);
    case WatchUpdate(_, _) => StepWatcher(c, w, s);
    case Touch => StepTouch(c, w);
    case _ => StepHandler(c, w, s);
  }

}

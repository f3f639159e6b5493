/** The ActionSet execution protocol as a transition system.

    One stored object with a version is shared by any number of handlers (add
    events), one goroutine per launched action, any number of update-event
    watchers, and the progress tracker.  Every access to the store is a separate
    `Get` or version-checked `Update`, so a step may act on a stale copy. */
module Protocol {
  import opened Common
  import opened ActionSets

  datatype Stored = Stored(version: nat, status: Option<Status>)

  /** What a goroutine actually executes, in order. */
  datatype Event =
    | PhaseRan(index: nat, ok: bool)
    | DeferRan(ok: bool)
    | Rendered(ok: bool)

  datatype Result =
    | Succeeded(arts: Artifacts)
    | RenderFailed
    | RunFailed(coreOk: bool, deferOk: bool)

  /** Program counter of the goroutine of one action. */
  datatype Pc =
    | NotLaunched
    | LaunchFailed
    | Entry(i: nat)
    | MarkPhase(i: nat)
    | ExecPhase(i: nat)
    | RecordPhase(i: nat, ok: bool)
    | DeferEntry(coreOk: bool)
    | MarkDefer(coreOk: bool)
    | ExecDefer(coreOk: bool)
    | RecordDefer(coreOk: bool, ok: bool)
    | Decide(coreOk: bool, deferOk: bool)
    | RecordRender(arts: Option<Artifacts>)
    | WriteComplete(arts: Option<Artifacts>)
    | Done(result: Result)

  datatype Thread = Thread(pc: Pc, copy: Option<Stored>, events: seq<Event>)

  /** A goroutine of `onAddActionSet`. */
  datatype Handler =
    | HIdle
    | HObserved(seen: Stored)
    | HGet
    | HGate(seen: Stored)
    | HLaunch(seen: Stored, next: nat)
    | HFail(seen: Stored, write: Status, at: nat)
    | HDone(passed: bool)

  /** A call of `onUpdateActionSet`. */
  datatype Watcher =
    | WIdle
    | WActive(copy: Option<Stored>)
    | WDone

  datatype World = World(
    store: Stored,
    handlers: seq<Handler>,
    threads: seq<Thread>,
    watchers: seq<Watcher>,
    successes: nat,
    failures: nat)

  datatype Step =
    | Observe(h: nat)
    | InitStatus(h: nat, initOk: bool, outcome: Outcome)
    | SkipInit(h: nat)
    | Fetch(h: nat, fetched: bool)
    | Gate(h: nat, outcome: Outcome)
    | Launch(h: nat)
    | LaunchFail(h: nat, reachedRun: bool)
    | LaunchEnd(h: nat)
    | FailWrite(h: nat, outcome: Outcome)
    | Local(a: nat, ok: bool, arts: Artifacts)
    | ThreadGet(a: nat)
    | ThreadUpdate(a: nat, outcome: Outcome)
    | ThreadRejected(a: nat)
    | ThreadConflict(a: nat)
    | WatchEvent(w: nat)
    | WatchGet(w: nat)
    | WatchUpdate(w: nat, outcome: Outcome)
    | WatchConflict(w: nat)
    | Touch

  // ---------------------------------------------------------------- one goroutine

  predicate IsWrite(pc: Pc) {
    pc.MarkPhase? || pc.RecordPhase? || pc.MarkDefer? || pc.RecordDefer? || pc.RecordRender? || pc.WriteComplete?
  }

  predicate IsLocal(pc: Pc) {
    pc.Entry? || pc.ExecPhase? || pc.DeferEntry? || pc.ExecDefer? || pc.Decide?
  }

  /** A step that does not touch the store; `ok` is how the outside call ended. */
  function LocalNext(ac: ActionConfig, pc: Pc, ok: bool, arts: Artifacts): Pc
    requires IsLocal(pc)
  {
    match pc
    case Entry(i) =>
      if i >= |ac.phases| then DeferEntry(true)
      else if ok then MarkPhase(i)
      else RecordPhase(i, false)
    case ExecPhase(i) => RecordPhase(i, ok)
    case DeferEntry(coreOk) => if ac.deferName.Some? then MarkDefer(coreOk) else Decide(coreOk, true)
    case ExecDefer(coreOk) => RecordDefer(coreOk, ok)
    case Decide(coreOk, deferOk) =>
      if !(coreOk && deferOk) then Done(RunFailed(coreOk, deferOk))
      else if |ac.templates| == 0 then RecordRender(Some(ac.templates))
      else if ok then RecordRender(Some(arts))
      else RecordRender(None)
  }

  function LocalEvents(ac: ActionConfig, pc: Pc, ok: bool): seq<Event>
    requires IsLocal(pc)
  {
    match pc
    case ExecPhase(i) => [PhaseRan(i, ok)]
    case ExecDefer(_) => [DeferRan(ok)]
    case Decide(coreOk, deferOk) =>
      if coreOk && deferOk then [Rendered(|ac.templates| == 0 || ok)] else []
    case _ => []
  }

  /** Where a reconcile leaves the goroutine, given whether it returned no error. */
  function AfterWrite(pc: Pc, acked: bool): Pc
    requires IsWrite(pc)
  {
    match pc
    case MarkPhase(i) => ExecPhase(i)
    case RecordPhase(i, ok) => if acked && ok then Entry(i + 1) else DeferEntry(false)
    case MarkDefer(coreOk) => ExecDefer(coreOk)
    case RecordDefer(coreOk, ok) => Decide(coreOk, ok && acked)
    case RecordRender(arts) => WriteComplete(arts)
    case WriteComplete(arts) => Done(if arts.Some? then Succeeded(arts.value) else RenderFailed)
  }

  /** Every index the closure uses exists in the object it is given. */
  predicate InBounds(ac: ActionConfig, a: nat, pc: Pc, s: Status) {
    && a < |s.actions|
    && (pc.RecordPhase? ==> pc.i < |s.actions[a].phases|)
    && (pc.MarkPhase? ==> pc.i < |ac.phases|)
    && (pc.MarkDefer? ==> ac.deferName.Some?)
  }

  /** The closure the goroutine passes to `reconcile.ActionSet`. */
  ghost function Write(ac: ActionConfig, a: nat, pc: Pc, s: Status): Status
    requires IsWrite(pc) && InBounds(ac, a, pc, s)
  {
    match pc
    case MarkPhase(i) => MarkRunning(s, a, ac.phases[i])
    case RecordPhase(i, ok) => RecordCore(s, a, i, ok)
    case MarkDefer(_) => MarkRunning(s, a, ac.deferName.value)
    case RecordDefer(_, ok) => RecordDeferred(s, a, ok)
    case RecordRender(arts) => RecordArtifacts(s, a, arts)
    case WriteComplete(_) => MaybeComplete(s, a)
  }

  /** `reconcile.ActionSet` validates the object before and after the closure. */
  ghost predicate Accepts(c: Config, a: nat, pc: Pc, cp: Stored)
    requires a < |c| && IsWrite(pc)
  {
    && cp.status.Some?
    && Valid(|c|, cp.status.value)
    && (InBounds(c[a], a, pc, cp.status.value) ==> Valid(|c|, Write(c[a], a, pc, cp.status.value)))
  }

  function SetThread(w: World, a: nat, pc: Pc, copy: Option<Stored>, events: seq<Event>): World
    requires a < |w.threads|
  {
    w.(threads := w.threads[a := Thread(pc, copy, events)],
       successes := w.successes + if pc.Done? && !pc.result.RunFailed? then 1 else 0,
       failures := w.failures + if pc == LaunchFailed || (pc.Done? && pc.result.RunFailed?) then 1 else 0)
  }

  // ---------------------------------------------------------------- the store

  function Put(st: Stored, s: Status): Stored {
    Stored(st.version + 1, Some(s))
  }

  /** An update goes through only for the version it was read at. */
  predicate CanEnd(store: Stored, seen: Stored, outcome: Outcome) {
    outcome != Refused ==> seen.version == store.version
  }

  // ---------------------------------------------------------------- enabled steps

  predicate HandlerAt(w: World, h: nat) { h < |w.handlers| }

  predicate ThreadWrites(c: Config, w: World, a: nat) {
    a < |c| && a < |w.threads| && IsWrite(w.threads[a].pc)
  }

  predicate HasCopy(c: Config, w: World, a: nat) {
    ThreadWrites(c, w, a) && w.threads[a].copy.Some?
  }

  ghost predicate Enabled(c: Config, w: World, s: Step) {
    match s
    case Observe(h) =>
      HandlerAt(w, h) && w.handlers[h].HIdle?
      && (w.store.status.Some? ==> Valid(|c|, w.store.status.value))
    case InitStatus(h, initOk, outcome) =>
      HandlerAt(w, h) && w.handlers[h].HObserved? && w.handlers[h].seen.status.None?
      && CanEnd(w.store, w.handlers[h].seen, outcome) && (|c| == 0 ==> initOk)
    case SkipInit(h) =>
      HandlerAt(w, h) && w.handlers[h].HObserved? && w.handlers[h].seen.status.Some?
    case Fetch(h, fetched) =>
      HandlerAt(w, h) && w.handlers[h].HGet?
    case Gate(h, outcome) =>
      HandlerAt(w, h) && w.handlers[h].HGate? && w.handlers[h].seen.status.Some?
      && CanEnd(w.store, w.handlers[h].seen, outcome)
    case Launch(h) =>
      HandlerAt(w, h) && w.handlers[h].HLaunch? && w.handlers[h].next < |w.threads|
    case LaunchFail(h, reachedRun) =>
      HandlerAt(w, h) && w.handlers[h].HLaunch? && w.handlers[h].next < |w.threads|
      && w.handlers[h].seen.status.Some? && w.handlers[h].next < |w.handlers[h].seen.status.value.actions|
    case LaunchEnd(h) =>
      HandlerAt(w, h) && w.handlers[h].HLaunch? && w.handlers[h].next >= |c|
    case FailWrite(h, outcome) =>
      HandlerAt(w, h) && w.handlers[h].HFail? && CanEnd(w.store, w.handlers[h].seen, outcome)
    case Local(a, ok, arts) =>
      a < |c| && a < |w.threads| && IsLocal(w.threads[a].pc)
    case ThreadGet(a) =>
      ThreadWrites(c, w, a) && w.threads[a].copy.None?
    case ThreadUpdate(a, outcome) =>
      HasCopy(c, w, a) && CanEnd(w.store, w.threads[a].copy.value, outcome)
      && (outcome != Refused ==>
        && Accepts(c, a, w.threads[a].pc, w.threads[a].copy.value)
        && InBounds(c[a], a, w.threads[a].pc, w.threads[a].copy.value.status.value))
    case ThreadRejected(a) =>
      HasCopy(c, w, a) && !Accepts(c, a, w.threads[a].pc, w.threads[a].copy.value)
    case ThreadConflict(a) =>
      HasCopy(c, w, a) && w.threads[a].copy.value.version != w.store.version
      && Accepts(c, a, w.threads[a].pc, w.threads[a].copy.value)
    case WatchEvent(i) =>
      i < |w.watchers| && w.watchers[i].WIdle?
    case WatchGet(i) =>
      i < |w.watchers| && w.watchers[i].WActive? && w.watchers[i].copy.None?
    case WatchUpdate(i, outcome) =>
      i < |w.watchers| && w.watchers[i].WActive? && w.watchers[i].copy.Some?
      && CanEnd(w.store, w.watchers[i].copy.value, outcome)
      && (outcome != Refused ==>
        && w.watchers[i].copy.value.status.Some?
        && Valid(|c|, w.watchers[i].copy.value.status.value)
        && Valid(|c|, ForceComplete(w.watchers[i].copy.value.status.value)))
    case WatchConflict(i) =>
      i < |w.watchers| && w.watchers[i].WActive? && w.watchers[i].copy.Some?
      && w.watchers[i].copy.value.version != w.store.version
    case Touch =>
      w.store.status.Some?
  }

  // ---------------------------------------------------------------- effect of a step

  /** `handleActionSet` continues only on a valid, pending object. */
  ghost function AfterFetch(c: Config, st: Stored): Handler {
    if st.status.Some? && Valid(|c|, st.status.value) && st.status.value.state == Pending
    then HGate(st)
    else HDone(false)
  }

  /** The failed launch of action `k`: the status the handler tries to write. */
  function LaunchFailure(s: Status, k: nat, reachedRun: bool): Status
    requires k < |s.actions|
  {
    var ph := s.actions[k].phases;
    var s1 := if reachedRun && |ph| > 0
              then s.(actions := s.actions[k := s.actions[k].(phases := ph[0 := ph[0].(state := Failed)])])
              else s;
    s1.(state := Failed, runningPhase := "")
  }

  ghost function Do(c: Config, w: World, s: Step): World
    requires Enabled(c, w, s)
  {
    match s
    case Observe(h) => w.(handlers := w.handlers[h := HObserved(w.store)])
    case InitStatus(h, initOk, outcome) =>
      var w1 := w.(handlers := w.handlers[h := HGet]);
      if outcome == Refused then w1
      else w1.(store := Put(w.store, if initOk then InitialStatus(c) else FailedInit()))
    case SkipInit(h) => w.(handlers := w.handlers[h := HGet])
    case Fetch(h, fetched) =>
      w.(handlers := w.handlers[h := if fetched then AfterFetch(c, w.store) else HDone(false)])
    case Gate(h, outcome) =>
      var seen := w.handlers[h].seen;
      if outcome == Refused then w.(handlers := w.handlers[h := HDone(false)])
      else
        var store' := Put(w.store, seen.status.value.(state := Running));
        w.(store := store',
           handlers := w.handlers[h := if outcome == Acked then HLaunch(store', 0) else HDone(false)])
    case Launch(h) =>
      var k := w.handlers[h].next;
      SetThread(w, k, Entry(0), None, w.threads[k].events)
        .(handlers := w.handlers[h := w.handlers[h].(next := k + 1)])
    case LaunchFail(h, reachedRun) =>
      var k, seen := w.handlers[h].next, w.handlers[h].seen;
      var s := seen.status.value;
      // A launch that fails on an action without phases indexes phase 0 and panics.
      var h' := if reachedRun && |s.actions[k].phases| == 0 then HDone(true)
                else HFail(seen, LaunchFailure(s, k, reachedRun), k);
      var w1 := if reachedRun then SetThread(w, k, LaunchFailed, None, w.threads[k].events) else w;
      w1.(handlers := w.handlers[h := h'])
    case LaunchEnd(h) => w.(handlers := w.handlers[h := HDone(true)])
    case FailWrite(h, outcome) =>
      var w1 := w.(handlers := w.handlers[h := HDone(true)]);
      if outcome == Refused then w1 else w1.(store := Put(w.store, w.handlers[h].write))
    case Local(a, ok, arts) =>
      var t := w.threads[a];
      SetThread(w, a, LocalNext(c[a], t.pc, ok, arts), None, t.events + LocalEvents(c[a], t.pc, ok))
    case ThreadGet(a) =>
      w.(threads := w.threads[a := w.threads[a].(copy := Some(w.store))])
    case ThreadUpdate(a, outcome) =>
      var t := w.threads[a];
      var w1 := SetThread(w, a, AfterWrite(t.pc, outcome == Acked), None, t.events);
      if outcome == Refused then w1
      else w1.(store := Put(w.store, Write(c[a], a, t.pc, t.copy.value.status.value)))
    case ThreadRejected(a) =>
      SetThread(w, a, AfterWrite(w.threads[a].pc, false), None, w.threads[a].events)
    case ThreadConflict(a) =>
      w.(threads := w.threads[a := w.threads[a].(copy := None)])
    case WatchEvent(i) =>
      w.(watchers := w.watchers[i := if CompletesOnUpdate(|c|, w.store.status) then WActive(None) else WDone])
    case WatchGet(i) => w.(watchers := w.watchers[i := WActive(Some(w.store))])
    case WatchUpdate(i, outcome) =>
      var w1 := w.(watchers := w.watchers[i := WDone]);
      if outcome == Refused then w1
      else w1.(store := Put(w.store, ForceComplete(w.watchers[i].copy.value.status.value)))
    case WatchConflict(i) => w.(watchers := w.watchers[i := WActive(None)])
    case Touch => w.(store := Put(w.store, w.store.status.value))
  }

  // ---------------------------------------------------------------- runs

  ghost predicate Init(c: Config, w: World) {
    && w.store.status.None?
    && |w.threads| == |c|
    && (forall h | 0 <= h < |w.handlers| :: w.handlers[h] == HIdle)
    && (forall a | 0 <= a < |c| :: w.threads[a] == Thread(NotLaunched, None, []))
    && (forall i | 0 <= i < |w.watchers| :: w.watchers[i] == WIdle)
    && w.successes == 0 && w.failures == 0
  }

  ghost predicate Next(c: Config, w: World, w': World) {
    exists s: Step :: Enabled(c, w, s) && w' == Do(c, w, s)
  }

  /** Any finite interleaving of steps. */
  ghost predicate Run(c: Config, r: seq<World>) {
    && |r| > 0
    && Init(c, r[0])
    && forall i | 0 < i < |r| :: Linked(c, r, i)
  }

  /** World `i` follows from the one before it. */
  ghost predicate Linked(c: Config, r: seq<World>, i: nat)
    requires 0 < i < |r|
  {
    Next(c, r[i - 1], r[i])
  }

  /** A step in which the API server or a launch misbehaves.  Losing a version race
      is not a fault. */
  ghost predicate IsFault(c: Config, w: World, s: Step)
    requires Enabled(c, w, s)
  {
    match s
    case InitStatus(h, initOk, outcome) =>
      !initOk || outcome == Lost || (outcome == Refused && w.handlers[h].seen.version == w.store.version)
    case Fetch(_, fetched) => !fetched
    case Gate(h, outcome) => outcome == Lost || (outcome == Refused && w.handlers[h].seen.version == w.store.version)
    case LaunchFail(_, _) => true
    case FailWrite(_, _) => true
    case ThreadUpdate(_, outcome) => outcome != Acked
    case WatchUpdate(_, outcome) => outcome != Acked
    case _ => false
  }

  ghost predicate CleanNext(c: Config, w: World, w': World) {
    exists s: Step :: Enabled(c, w, s) && !IsFault(c, w, s) && w' == Do(c, w, s)
  }

  /** A run in which every action that is launched launches and no store access fails. */
  ghost predicate CleanRun(c: Config, r: seq<World>) {
    && |r| > 0
    && Init(c, r[0])
    && forall i | 0 < i < |r| :: CleanLinked(c, r, i)
  }

  ghost predicate CleanLinked(c: Config, r: seq<World>, i: nat)
    requires 0 < i < |r|
  {
    CleanNext(c, r[i - 1], r[i])
  }
}

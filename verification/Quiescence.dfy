/** What a fault-free run ends in: no store access and no launch fails, while phases,
    defer phases and renderings may fail, and processes interleave freely. */
module Quiescence {
  import opened Common
  import opened ActionSets
  import opened Protocol
  import opened Safety
  import opened SafetyTheorems

  lemma CleanIsRun(c: Config, r: seq<World>)
    requires CleanRun(c, r)
    ensures Run(c, r)
  {
    forall i | 0 < i < |r|
      ensures Linked(c, r, i)
    {
      assert CleanLinked(c, r, i);
    }
  }

  // ---------------------------------------------------------------- the validator never rejects results

  /** Only the mark of a running phase can be rejected by the validator: results,
      artifacts and completion are always accepted, even on a stale copy. */
  lemma ResultsAreAccepted(c: Config, w: World, a: nat)
    requires Inv(c, w) && HasCopy(c, w, a)
    requires !w.threads[a].pc.MarkPhase? && !w.threads[a].pc.MarkDefer?
    ensures Accepts(c, a, w.threads[a].pc, w.threads[a].copy.value)
  {
    var pc, s := w.threads[a].pc, w.threads[a].copy.value.status.value;
    assert ThreadOk(c, w.store, a, w.threads[a]);
    WriteInBounds(c, a, pc, s);
    var s' := Write(c[a], a, pc, s);
    WriteFrame(c, a, pc, s);
    assert PhaseOrderOk(s.actions[a].phases);
    if pc.RecordPhase? {
      var ph := s.actions[a].phases;
      assert ph[pc.i].state == Pending || ph[pc.i].state == Running;
      assert Unsettled(ph) && s.state != Complete;
      RecordedShape(ph, pc.i, if pc.ok then Complete else Failed);
    } else {
      assert s'.actions[a].phases == s.actions[a].phases;
    }
  }

  lemma RecordedShape(ph: seq<Phase>, i: nat, state: State)
    requires i < |ph| && DoneBefore(ph, i) && PendingFrom(ph, i + 1)
    ensures PhaseOrderOk(ph[i := ph[i].(state := state)])
  {
  }

  // ---------------------------------------------------------------- the final state

  /** A phase, the defer phase or the rendering failed, and this is on record. */
  predicate Bad(pc: Pc) {
    match pc
    case DeferEntry(coreOk) => !coreOk
    case MarkDefer(coreOk) => !coreOk
    case ExecDefer(coreOk) => !coreOk
    case RecordDefer(coreOk, _) => !coreOk
    case Decide(coreOk, deferOk) => !(coreOk && deferOk)
    case WriteComplete(arts) => arts.None?
    case Done(result) => !result.Succeeded?
    case _ => false
  }

  predicate EndedWell(pc: Pc) {
    pc.Done? && pc.result.Succeeded?
  }

  ghost predicate AnyBad(ts: seq<Thread>) {
    exists a | 0 <= a < |ts| :: Bad(ts[a].pc)
  }

  ghost predicate AllDone(ts: seq<Thread>) {
    forall a | 0 <= a < |ts| :: ts[a].pc.Done?
  }

  /** No action names its defer phase like its last core phase, and only that one. */
  ghost predicate NoCollision(c: Config) {
    forall a | 0 <= a < |c| :: !Collides(c[a])
  }

  predicate StateIs(o: Option<Status>, state: State) {
    o.Some? && o.value.state == state
  }

  ghost predicate EndsRight(c: Config, w: World) {
    |c| > 0 && NoCollision(c) && AllDone(w.threads) ==>
      StateIs(w.store.status, Complete) || StateIs(w.store.status, Failed)
  }

  ghost predicate CleanInv(c: Config, w: World) {
    && Inv(c, w)
    && w.store.status != Some(FailedInit())
    && (StateIs(w.store.status, Failed) <==> AnyBad(w.threads))
    && EndsRight(c, w)
    && (forall h | 0 <= h < |w.handlers| :: !w.handlers[h].HFail?)
    && (forall a | 0 <= a < |w.threads| :: w.threads[a].pc != LaunchFailed)
  }

  lemma CleanInit(c: Config, w: World)
    requires Init(c, w)
    ensures CleanInv(c, w)
  {
    InitInv(c, w);
    if |c| > 0 { assert !w.threads[0].pc.Done?; }
  }

  /** The status is written for the first time, or the set is started. */
  lemma CleanStart(c: Config, w: World, s: Step)
    requires CleanInv(c, w) && Enabled(c, w, s) && !IsFault(c, w, s) && (s.InitStatus? || s.Gate?)
    ensures CleanInv(c, Do(c, w, s))
  {
    StepInv(c, w, s);
    assert HandlerOk(c, w, w.handlers[s.h]);
    if s.outcome != Refused { NothingLaunched(c, w); }
  }

  /** A step that leaves the program counters and the state alone. */
  lemma CleanQuiet(c: Config, w: World, s: Step)
    requires CleanInv(c, w) && Enabled(c, w, s) && !IsFault(c, w, s)
    requires s.Observe? || s.SkipInit? || s.Fetch? || s.LaunchEnd? || s.Touch? || s.ThreadGet? || s.ThreadConflict?
    ensures CleanInv(c, Do(c, w, s))
  {
    StepInv(c, w, s);
    SamePcs(w.threads, Do(c, w, s).threads);
  }

  lemma CleanWatch(c: Config, w: World, s: Step)
    requires CleanInv(c, w) && Enabled(c, w, s) && !IsFault(c, w, s)
    requires s.WatchEvent? || s.WatchGet? || s.WatchConflict? || s.WatchUpdate?
    ensures CleanInv(c, Do(c, w, s))
  {
    StepInv(c, w, s);
    assert WatcherOk(c, w.store, w.watchers[s.w]);
  }

  lemma SamePcs(ts: seq<Thread>, ts': seq<Thread>)
    requires |ts| == |ts'| && forall a | 0 <= a < |ts| :: ts[a].pc == ts'[a].pc
    ensures AnyBad(ts) <==> AnyBad(ts')
    ensures AllDone(ts) <==> AllDone(ts')
  {
  }

  lemma NothingLaunched(c: Config, w: World)
    requires Inv(c, w) && (w.store.status.None? || w.store.status.value.state == Pending)
    ensures forall a | 0 <= a < |c| :: w.threads[a].pc == NotLaunched
    ensures !AnyBad(w.threads)
  {
    forall a | 0 <= a < |c|
      ensures w.threads[a].pc == NotLaunched
    {
      assert ThreadOk(c, w.store, a, w.threads[a]);
    }
  }

  lemma CleanLaunch(c: Config, w: World, s: Step)
    requires CleanInv(c, w) && Enabled(c, w, s) && s.Launch?
    ensures CleanInv(c, Do(c, w, s))
  {
    var w', k := Do(c, w, s), w.handlers[s.h].next;
    StepInv(c, w, s);
    assert HandlerOk(c, w, w.handlers[s.h]);
    assert !w'.threads[k].pc.Done?;
    ReplaceBad(w.threads, k, w'.threads[k]);
  }

  lemma ReplaceBad(ts: seq<Thread>, a: nat, t: Thread)
    requires a < |ts| && (Bad(ts[a].pc) ==> Bad(t.pc))
    ensures AnyBad(ts[a := t]) <==> AnyBad(ts) || Bad(t.pc)
  {
    var ts' := ts[a := t];
    assert ts'[a] == t;
    if AnyBad(ts) {
      var b :| 0 <= b < |ts| && Bad(ts[b].pc);
      assert Bad(ts'[b].pc);
    }
  }

  lemma CleanLocal(c: Config, w: World, s: Step)
    requires CleanInv(c, w) && Enabled(c, w, s) && s.Local?
    ensures CleanInv(c, Do(c, w, s))
  {
    hide Good, ActInv, LogInv, Valid, Accepts, Write, CopyOk, HandlerOk, WatcherOk;
    var w' := Do(c, w, s);
    StepInv(c, w, s);
    ReplaceBad(w.threads, s.a, w'.threads[s.a]);
    assert !w.threads[s.a].pc.Done?;
  }

  lemma CleanRejected(c: Config, w: World, s: Step)
    requires CleanInv(c, w) && Enabled(c, w, s) && s.ThreadRejected?
    ensures CleanInv(c, Do(c, w, s))
  {
    var w' := Do(c, w, s);
    StepInv(c, w, s);
    if !w.threads[s.a].pc.MarkPhase? && !w.threads[s.a].pc.MarkDefer? { ResultsAreAccepted(c, w, s.a); }
    ReplaceBad(w.threads, s.a, w'.threads[s.a]);
    assert !w'.threads[s.a].pc.Done?;
  }

  predicate FailsNow(pc: Pc) {
    (pc.RecordPhase? && !pc.ok) || (pc.RecordDefer? && !pc.ok) || pc == RecordRender(None)
  }

  lemma WriteFails(c: Config, a: nat, pc: Pc, s: Status)
    requires a < |c| && IsWrite(pc) && InBounds(c[a], a, pc, s)
    ensures Write(c[a], a, pc, s).state == Failed <==> s.state == Failed || FailsNow(pc)
    ensures Bad(AfterWrite(pc, true)) <==> Bad(pc) || FailsNow(pc)
    ensures AfterWrite(pc, true).Done? ==> pc.WriteComplete?
  {
  }

  /** If this write ends the last goroutine and nothing failed, it completes the set. */
  lemma FinalWriteCompletes(c: Config, w: World, a: nat, ts': seq<Thread>)
    requires Inv(c, w) && a < |c| && w.threads[a].pc.WriteComplete? && |ts'| == |c|
    requires forall b | 0 <= b < |c| && b != a :: ts'[b] == w.threads[b]
    requires ts'[a].pc == AfterWrite(w.threads[a].pc, true)
    requires AllDone(ts') && NoCollision(c) && !AnyBad(ts')
    requires StartedOk(c, w.store) && w.store.status.value.state != Failed
    ensures MaybeComplete(w.store.status.value, a).state == Complete
  {
    forall b | 0 <= b < |c| && b != a
      ensures EndedWell(w.threads[b].pc)
    {
      assert !Bad(ts'[b].pc);
    }
    assert !Bad(ts'[a].pc);
    LastOneCompletes(c, w, a);
  }

  /** The state after a write still says whether something failed, and how it ended. */
  lemma WriteEndsRight(c: Config, w: World, a: nat, ts': seq<Thread>)
    requires CleanInv(c, w) && HasCopy(c, w, a) && StartedOk(c, w.store)
    requires InBounds(c[a], a, w.threads[a].pc, w.store.status.value)
    requires |ts'| == |c| && ts' == w.threads[a := ts'[a]] && ts'[a].pc == AfterWrite(w.threads[a].pc, true)
    ensures var s' := Write(c[a], a, w.threads[a].pc, w.store.status.value);
      && (s'.state == Failed <==> AnyBad(ts'))
      && (NoCollision(c) && AllDone(ts') ==> s'.state == Complete || s'.state == Failed)
  {
    var pc, v := w.threads[a].pc, w.store.status.value;
    WriteFails(c, a, pc, v);
    ReplaceBad(w.threads, a, ts'[a]);
    if AllDone(ts') && NoCollision(c) && !AnyBad(ts') {
      assert ts'[a].pc.Done?;
      FinalWriteCompletes(c, w, a, ts');
    }
  }

  lemma CleanWrite(c: Config, w: World, a: nat, successes: nat, failures: nat)
    requires CleanInv(c, w) && HasCopy(c, w, a) && w.threads[a].copy.value.version == w.store.version
    requires Accepts(c, a, w.threads[a].pc, w.threads[a].copy.value)
    ensures w.threads[a].copy.value == w.store && InBounds(c[a], a, w.threads[a].pc, w.store.status.value)
    ensures CleanInv(c, w.(store := Put(w.store, Write(c[a], a, w.threads[a].pc, w.store.status.value)),
                           threads := w.threads[a := Thread(AfterWrite(w.threads[a].pc, true), None,
                             w.threads[a].events)],
                           successes := successes, failures := failures))
  {
    WriteApplied(c, w, a, true, successes, failures);
    assert ThreadOk(c, w.store, a, w.threads[a]);
    WriteEndsRight(c, w, a, w.threads[a := Thread(AfterWrite(w.threads[a].pc, true), None, w.threads[a].events)]);
  }

  lemma CleanUpdate(c: Config, w: World, s: Step)
    requires CleanInv(c, w) && Enabled(c, w, s) && s.ThreadUpdate? && s.outcome == Acked
    ensures CleanInv(c, Do(c, w, s))
  {
    CleanWrite(c, w, s.a, Do(c, w, s).successes, Do(c, w, s).failures);
  }

  /** The last goroutine to reach its final write finds every phase complete. */
  lemma LastOneCompletes(c: Config, w: World, a: nat)
    requires Inv(c, w) && a < |c| && NoCollision(c) && w.threads[a].pc.WriteComplete?
    requires forall b | 0 <= b < |c| && b != a :: EndedWell(w.threads[b].pc)
    requires w.store.status.Some? && w.store.status.value.state != Failed && |w.store.status.value.actions| == |c|
    ensures MaybeComplete(w.store.status.value, a).state == Complete
  {
    var s := w.store.status.value;
    forall b | 0 <= b < |c|
      ensures AllComplete(s.actions[b].phases)
    {
      assert ThreadOk(c, w.store, b, w.threads[b]);
      assert CoreDone(c[b], s.actions[b].phases);
      assert !Collides(c[b]) && ActionWF(c[b], s.actions[b]);
    }
  }

  lemma CleanStep(c: Config, w: World, s: Step)
    requires CleanInv(c, w) && Enabled(c, w, s) && !IsFault(c, w, s)
    ensures CleanInv(c, Do(c, w, s))
  {
    match s
    case Local(_, _, _) => CleanLocal(c, w, s);
    case ThreadUpdate(_, _) => CleanUpdate(c, w, s);
    case ThreadRejected(_) => CleanRejected(c, w, s);
    case Launch(_) => CleanLaunch(c, w, s);
    case InitStatus(_, _, _) => CleanStart(c, w, s);
    case Gate(_, _) => CleanStart(c, w, s);
    case WatchEvent(_) => CleanWatch(c, w, s);
    case WatchGet(_) => CleanWatch(c, w, s);
    case WatchConflict(_) => CleanWatch(c, w, s);
    case WatchUpdate(_, _) => CleanWatch(c, w, s);
    case _ => CleanQuiet(c, w, s);
  }

  lemma CleanNextInv(c: Config, w: World, w': World)
    requires CleanInv(c, w) && CleanNext(c, w, w')
    ensures CleanInv(c, w')
  {
    var s: Step :| Enabled(c, w, s) && !IsFault(c, w, s) && w' == Do(c, w, s);
    CleanStep(c, w, s);
  }

  lemma {:induction false} CleanRunInv(c: Config, r: seq<World>, i: nat)
    requires CleanRun(c, r) && i < |r|
    ensures CleanInv(c, r[i])
  {
    if i == 0 {
      CleanInit(c, r[0]);
    } else {
      CleanRunInv(c, r, i - 1);
      assert CleanLinked(c, r, i);
      CleanNextInv(c, r[i - 1], r[i]);
    }
  }

  /** Every core phase, the defer phase and the rendering of every action succeeded. */
  ghost predicate AllSucceeded(c: Config, w: World) {
    |w.threads| == |c| && forall a | 0 <= a < |c| :: w.threads[a].events == FullLog(c[a])
  }

  lemma SucceededOrBad(c: Config, r: seq<World>, i: nat)
    requires CleanRun(c, r) && i < |r| && AllDone(r[i].threads)
    ensures AllSucceeded(c, r[i]) <==> !AnyBad(r[i].threads)
  {
    CleanIsRun(c, r);
    RunInv(c, r, i);
    forall a | 0 <= a < |c|
      ensures r[i].threads[a].events == FullLog(c[a]) <==> !Bad(r[i].threads[a].pc)
    {
      FinishedAction(c, r, i, a);
    }
  }

  /** Quiescence.  Once every goroutine of a fault-free run has finished, the state is
      Complete if everything succeeded and Failed otherwise, provided no defer phase
      collides with the last core phase of its action. */
  lemma QuiescentState(c: Config, r: seq<World>)
    requires CleanRun(c, r) && |c| > 0 && NoCollision(c)
    requires AllDone(r[|r| - 1].threads)
    ensures var w := r[|r| - 1];
      StateIs(w.store.status, if AllSucceeded(c, w) then Complete else Failed)
  {
    CleanRunInv(c, r, |r| - 1);
    SucceededOrBad(c, r, |r| - 1);
  }

  /** With any names, the final state never claims more than the truth: it is Failed
      exactly when something failed, and Complete only when everything succeeded. */
  lemma QuiescentStateAnyNames(c: Config, r: seq<World>)
    requires CleanRun(c, r) && AllDone(r[|r| - 1].threads)
    ensures var w := r[|r| - 1];
      && (StateIs(w.store.status, Failed) <==> !AllSucceeded(c, w))
      && (StateIs(w.store.status, Complete) ==> AllSucceeded(c, w))
  {
    CleanRunInv(c, r, |r| - 1);
    SucceededOrBad(c, r, |r| - 1);
  }

  // ---------------------------------------------------------------- the artifacts

  /** The stored artifacts of an action are the templates of its blueprint until its
      rendering is recorded, and what was rendered from then on. */
  ghost predicate ArtifactsOk(ac: ActionConfig, st: ActionStatus, pc: Pc) {
    match pc
    case WriteComplete(Some(arts)) => st.artifacts == arts
    case Done(Succeeded(arts)) => st.artifacts == arts
    case _ => st.artifacts == ac.templates
  }

  ghost predicate ArtifactsInv(c: Config, w: World) {
    w.store.status.Some? ==>
      && |w.store.status.value.actions| == |w.threads| == |c|
      && forall a | 0 <= a < |c| :: ArtifactsOk(c[a], w.store.status.value.actions[a], w.threads[a].pc)
  }

  lemma ArtifactsMove(ac: ActionConfig, st: ActionStatus, pc: Pc, ok: bool, arts: Artifacts)
    requires ArtifactsOk(ac, st, pc)
    ensures IsLocal(pc) ==> ArtifactsOk(ac, st, LocalNext(ac, pc, ok, arts))
    ensures pc.MarkPhase? || pc.MarkDefer? ==> ArtifactsOk(ac, st, AfterWrite(pc, false))
  {
  }

  lemma ArtifactsWrite(c: Config, a: nat, pc: Pc, s: Status)
    requires a < |c| && IsWrite(pc) && InBounds(c[a], a, pc, s) && ArtifactsOk(c[a], s.actions[a], pc)
    ensures a < |Write(c[a], a, pc, s).actions|
    ensures ArtifactsOk(c[a], Write(c[a], a, pc, s).actions[a], AfterWrite(pc, true))
  {
  }

  lemma ArtifactsUpdate(c: Config, w: World, s: Step)
    requires CleanInv(c, w) && ArtifactsInv(c, w) && Enabled(c, w, s) && s.ThreadUpdate? && s.outcome == Acked
    ensures ArtifactsInv(c, Do(c, w, s))
  {
    assert ThreadOk(c, w.store, s.a, w.threads[s.a]);
    WriteFrame(c, s.a, w.threads[s.a].pc, w.store.status.value);
    ArtifactsWrite(c, s.a, w.threads[s.a].pc, w.store.status.value);
  }

  lemma ArtifactsReplace(c: Config, w: World, a: nat, w': World)
    requires ArtifactsInv(c, w) && a < |c| == |w.threads| && w'.store == w.store && w.store.status.Some?
    requires |w'.threads| == |c| && w'.threads == w.threads[a := w'.threads[a]]
    requires ArtifactsOk(c[a], w.store.status.value.actions[a], w'.threads[a].pc)
    ensures ArtifactsInv(c, w')
  {
  }

  lemma ArtifactsLocal(c: Config, w: World, s: Step)
    requires CleanInv(c, w) && ArtifactsInv(c, w) && Enabled(c, w, s) && s.Local?
    ensures ArtifactsInv(c, Do(c, w, s))
  {
    assert ThreadOk(c, w.store, s.a, w.threads[s.a]);
    ArtifactsMove(c[s.a], w.store.status.value.actions[s.a], w.threads[s.a].pc, s.ok, s.arts);
    ArtifactsReplace(c, w, s.a, Do(c, w, s));
  }

  lemma ArtifactsUnwritten(c: Config, w: World, s: Step)
    requires CleanInv(c, w) && ArtifactsInv(c, w) && Enabled(c, w, s)
    requires s.ThreadRejected? || s.ThreadGet? || s.ThreadConflict?
    ensures ArtifactsInv(c, Do(c, w, s))
  {
    var pc := w.threads[s.a].pc;
    assert ThreadOk(c, w.store, s.a, w.threads[s.a]);
    if s.ThreadRejected? && !pc.MarkPhase? && !pc.MarkDefer? { ResultsAreAccepted(c, w, s.a); }
    ArtifactsMove(c[s.a], w.store.status.value.actions[s.a], pc, true, map[]);
    ArtifactsReplace(c, w, s.a, Do(c, w, s));
  }

  lemma ArtifactsOther(c: Config, w: World, s: Step)
    requires CleanInv(c, w) && ArtifactsInv(c, w) && Enabled(c, w, s) && !IsFault(c, w, s)
    requires !s.ThreadUpdate? && !s.Local? && !s.ThreadRejected? && !s.ThreadGet? && !s.ThreadConflict?
    ensures ArtifactsInv(c, Do(c, w, s))
  {
    if s.InitStatus? || s.Gate? || s.Launch? { assert HandlerOk(c, w, w.handlers[s.h]); }
    if s.InitStatus? && s.outcome != Refused { NothingLaunched(c, w); }
    if s.WatchUpdate? { assert WatcherOk(c, w.store, w.watchers[s.w]); }
  }

  lemma ArtifactsStep(c: Config, w: World, s: Step)
    requires CleanInv(c, w) && ArtifactsInv(c, w) && Enabled(c, w, s) && !IsFault(c, w, s)
    ensures ArtifactsInv(c, Do(c, w, s))
  {
    match s
    case ThreadUpdate(_, _) => ArtifactsUpdate(c, w, s);
    case Local(_, _, _) => ArtifactsLocal(c, w, s);
    case ThreadRejected(_) => ArtifactsUnwritten(c, w, s);
    case ThreadGet(_) => ArtifactsUnwritten(c, w, s);
    case ThreadConflict(_) => ArtifactsUnwritten(c, w, s);
    case _ => ArtifactsOther(c, w, s);
  }

  lemma ArtifactsNext(c: Config, w: World, w': World)
    requires CleanInv(c, w) && ArtifactsInv(c, w) && CleanNext(c, w, w')
    ensures ArtifactsInv(c, w')
  {
    var s: Step :| Enabled(c, w, s) && !IsFault(c, w, s) && w' == Do(c, w, s);
    ArtifactsStep(c, w, s);
  }

  lemma {:induction false} ArtifactsRunInv(c: Config, r: seq<World>, i: nat)
    requires CleanRun(c, r) && i < |r|
    ensures ArtifactsInv(c, r[i])
  {
    if i > 0 {
      ArtifactsRunInv(c, r, i - 1);
      CleanRunInv(c, r, i - 1);
      assert CleanLinked(c, r, i);
      ArtifactsNext(c, r[i - 1], r[i]);
    }
  }

  /** In a fault-free run the artifacts of an action that ended in success are the ones
      its goroutine rendered, whatever the other actions do; those of an action that
      ended in failure are still the templates. */
  lemma ArtifactsAreTheRendered(c: Config, r: seq<World>, i: nat, a: nat)
    requires CleanRun(c, r) && i < |r| && a < |c| && |r[i].threads| == |c| && r[i].threads[a].pc.Done?
    ensures r[i].store.status.Some? && |r[i].store.status.value.actions| == |c|
    ensures r[i].store.status.value.actions[a].artifacts ==
      match r[i].threads[a].pc.result case Succeeded(arts) => arts case _ => c[a].templates
  {
    CleanRunInv(c, r, i);
    ArtifactsRunInv(c, r, i);
    assert ThreadOk(c, r[i].store, a, r[i].threads[a]);
  }

  // ---------------------------------------------------------------- the running phase

  predicate CoreNamed(ac: ActionConfig, upTo: int, name: string) {
    exists k | 0 <= k < |ac.phases| :: k < upTo && ac.phases[k] == name
  }

  /** The goroutine may be the one whose phase the status shows as running. */
  predicate Holds(ac: ActionConfig, pc: Pc, name: string) {
    var n := |ac.phases|;
    match pc
    case Entry(i) => CoreNamed(ac, i, name)
    case MarkPhase(i) => CoreNamed(ac, i, name)
    case ExecPhase(i) => CoreNamed(ac, i + 1, name)
    case RecordPhase(i, _) => CoreNamed(ac, i + 1, name)
    case DeferEntry(coreOk) => coreOk && CoreNamed(ac, n, name)
    case MarkDefer(coreOk) => coreOk && CoreNamed(ac, n, name)
    case ExecDefer(coreOk) => ac.deferName == Some(name) || (coreOk && CoreNamed(ac, n, name))
    case RecordDefer(coreOk, _) => ac.deferName == Some(name) || (coreOk && CoreNamed(ac, n, name))
    case Decide(coreOk, deferOk) => deferOk && (ac.deferName == Some(name) || (coreOk && CoreNamed(ac, n, name)))
    case RecordRender(_) => ac.deferName == Some(name) || CoreNamed(ac, n, name)
    case WriteComplete(_) => ac.deferName == Some(name) || CoreNamed(ac, n, name)
    case Done(RunFailed(coreOk, deferOk)) => !coreOk && deferOk && ac.deferName == Some(name)
    case _ => false
  }

  ghost predicate Held(c: Config, ts: seq<Thread>, name: string) {
    exists a | 0 <= a < |c| && a < |ts| :: Holds(c[a], ts[a].pc, name)
  }

  ghost predicate RunningPhaseInv(c: Config, w: World) {
    w.store.status.Some? && w.store.status.value.runningPhase != "" ==>
      Held(c, w.threads, w.store.status.value.runningPhase)
  }

  lemma HeldFrame(c: Config, ts: seq<Thread>, a: nat, t: Thread, name: string)
    requires a < |ts| == |c| && Held(c, ts, name) && (Holds(c[a], ts[a].pc, name) ==> Holds(c[a], t.pc, name))
    ensures Held(c, ts[a := t], name)
  {
    var b :| 0 <= b < |c| && b < |ts| && Holds(c[b], ts[b].pc, name);
    var ts' := ts[a := t];
    assert Holds(c[b], ts'[b].pc, name);
  }

  lemma LocalHolds(ac: ActionConfig, st: ActionStatus, pc: Pc, ok: bool, arts: Artifacts, name: string)
    requires IsLocal(pc) && Holds(ac, pc, name) && ActionWF(ac, st) && ActInv(ac, st, pc)
    ensures Holds(ac, LocalNext(ac, pc, ok, arts), name)
  {
    if pc.Entry? {
      var k :| 0 <= k < |ac.phases| && k < pc.i && ac.phases[k] == name;
    }
  }

  /** An acknowledged write hands the running phase on, sets it to its own phase, or
      clears it. */
  lemma WriteHolds(c: Config, a: nat, pc: Pc, s: Status)
    requires a < |c| && IsWrite(pc) && Good(c, s) && ActInv(c[a], s.actions[a], pc) && InBounds(c[a], a, pc, s)
    ensures var name := Write(c[a], a, pc, s).runningPhase;
      || name == ""
      || Holds(c[a], AfterWrite(pc, true), name)
      || (name == s.runningPhase && !Holds(c[a], pc, name))
  {
    var ac, st := c[a], s.actions[a];
    assert ActionWF(ac, st);
    match pc
    case MarkPhase(i) => assert CoreNamed(ac, i + 1, ac.phases[i]);
    case RecordPhase(i, ok) =>
    case WriteComplete(_) =>
      if Holds(ac, pc, s.runningPhase) { CoreNameInAction(ac, st, s.runningPhase); }
    case _ =>
  }

  lemma CoreNameInAction(ac: ActionConfig, st: ActionStatus, name: string)
    requires ActionWF(ac, st) && (ac.deferName == Some(name) || CoreNamed(ac, |ac.phases|, name))
    ensures PhaseInAction(name, st)
  {
    if ac.deferName != Some(name) {
      var k :| 0 <= k < |ac.phases| && k < |ac.phases| && ac.phases[k] == name;
      assert st.phases[k].name == name;
    }
  }

  lemma RejectedHolds(ac: ActionConfig, pc: Pc, name: string)
    requires (pc.MarkPhase? || pc.MarkDefer?) && Holds(ac, pc, name)
    ensures Holds(ac, AfterWrite(pc, false), name)
  {
    if pc.MarkPhase? {
      var k :| 0 <= k < |ac.phases| && k < pc.i && ac.phases[k] == name;
    }
  }

  lemma RunningPhaseWrite(c: Config, w: World, s: Step)
    requires CleanInv(c, w) && RunningPhaseInv(c, w) && Enabled(c, w, s) && s.ThreadUpdate? && s.outcome == Acked
    ensures RunningPhaseInv(c, Do(c, w, s))
  {
    var a, t, w' := s.a, w.threads[s.a], Do(c, w, s);
    assert ThreadOk(c, w.store, a, t);
    assert t.copy.value == w.store;
    var v, name := w.store.status.value, w'.store.status.value.runningPhase;
    WriteHolds(c, a, t.pc, v);
    if name != "" {
      if Holds(c[a], AfterWrite(t.pc, true), name) {
        assert Holds(c[a], w'.threads[a].pc, name);
      } else {
        HeldFrame(c, w.threads, a, w'.threads[a], name);
      }
    }
  }

  /** A goroutine moves on without a write. */
  lemma RunningPhaseMove(c: Config, w: World, a: nat, pc': Pc, w': World)
    requires RunningPhaseInv(c, w) && a < |c| == |w.threads| && w'.store == w.store
    requires |w'.threads| == |c| && w'.threads == w.threads[a := w'.threads[a]] && w'.threads[a].pc == pc'
    requires w.store.status.Some? && Holds(c[a], w.threads[a].pc, w.store.status.value.runningPhase) ==>
      Holds(c[a], pc', w.store.status.value.runningPhase)
    ensures RunningPhaseInv(c, w')
  {
    if w.store.status.Some? && w.store.status.value.runningPhase != "" {
      HeldFrame(c, w.threads, a, w'.threads[a], w.store.status.value.runningPhase);
    }
  }

  lemma RunningPhaseLocal(c: Config, w: World, s: Step)
    requires CleanInv(c, w) && RunningPhaseInv(c, w) && Enabled(c, w, s) && s.Local?
    ensures RunningPhaseInv(c, Do(c, w, s))
  {
    var t, w' := w.threads[s.a], Do(c, w, s);
    assert ThreadOk(c, w.store, s.a, t);
    var name := w.store.status.value.runningPhase;
    if Holds(c[s.a], t.pc, name) {
      LocalHolds(c[s.a], w.store.status.value.actions[s.a], t.pc, s.ok, s.arts, name);
    }
    RunningPhaseMove(c, w, s.a, LocalNext(c[s.a], t.pc, s.ok, s.arts), w');
  }

  lemma RunningPhaseRejected(c: Config, w: World, s: Step)
    requires CleanInv(c, w) && RunningPhaseInv(c, w) && Enabled(c, w, s) && s.ThreadRejected?
    ensures RunningPhaseInv(c, Do(c, w, s))
  {
    var t, w' := w.threads[s.a], Do(c, w, s);
    assert ThreadOk(c, w.store, s.a, t);
    var name := w.store.status.value.runningPhase;
    if !t.pc.MarkPhase? && !t.pc.MarkDefer? { ResultsAreAccepted(c, w, s.a); }
    if Holds(c[s.a], t.pc, name) { RejectedHolds(c[s.a], t.pc, name); }
    RunningPhaseMove(c, w, s.a, AfterWrite(t.pc, false), w');
  }

  lemma RunningPhaseCopy(c: Config, w: World, s: Step)
    requires CleanInv(c, w) && RunningPhaseInv(c, w) && Enabled(c, w, s)
    requires s.ThreadGet? || s.ThreadConflict? || s.Launch?
    ensures RunningPhaseInv(c, Do(c, w, s))
  {
    var w' := Do(c, w, s);
    if s.Launch? {
      var k := w.handlers[s.h].next;
      assert HandlerOk(c, w, w.handlers[s.h]);
      RunningPhaseMove(c, w, k, Entry(0), w');
    } else {
      RunningPhaseMove(c, w, s.a, w.threads[s.a].pc, w');
    }
  }

  lemma RunningPhaseOther(c: Config, w: World, s: Step)
    requires CleanInv(c, w) && RunningPhaseInv(c, w) && Enabled(c, w, s) && !IsFault(c, w, s)
    requires !s.ThreadUpdate? && !s.Local? && !s.ThreadRejected? && !s.ThreadGet? && !s.ThreadConflict? && !s.Launch?
    ensures RunningPhaseInv(c, Do(c, w, s))
  {
    if s.InitStatus? || s.Gate? { assert HandlerOk(c, w, w.handlers[s.h]); }
  }

  lemma RunningPhaseStep(c: Config, w: World, s: Step)
    requires CleanInv(c, w) && RunningPhaseInv(c, w) && Enabled(c, w, s) && !IsFault(c, w, s)
    ensures RunningPhaseInv(c, Do(c, w, s))
  {
    match s
    case ThreadUpdate(_, _) => RunningPhaseWrite(c, w, s);
    case Local(_, _, _) => RunningPhaseLocal(c, w, s);
    case ThreadRejected(_) => RunningPhaseRejected(c, w, s);
    case ThreadGet(_) => RunningPhaseCopy(c, w, s);
    case ThreadConflict(_) => RunningPhaseCopy(c, w, s);
    case Launch(_) => RunningPhaseCopy(c, w, s);
    case _ => RunningPhaseOther(c, w, s);
  }

  lemma RunningPhaseNext(c: Config, w: World, w': World)
    requires CleanInv(c, w) && RunningPhaseInv(c, w) && CleanNext(c, w, w')
    ensures RunningPhaseInv(c, w')
  {
    var s: Step :| Enabled(c, w, s) && !IsFault(c, w, s) && w' == Do(c, w, s);
    RunningPhaseStep(c, w, s);
  }

  /** In every fault-free run a running phase that is shown belongs to an action whose
      goroutine is still at work, or is the defer phase that succeeded after a failed
      core phase, whatever names the actions share. */
  lemma {:induction false} RunningPhaseIsHeld(c: Config, r: seq<World>, i: nat)
    requires CleanRun(c, r) && i < |r|
    ensures RunningPhaseInv(c, r[i])
  {
    if i > 0 {
      RunningPhaseIsHeld(c, r, i - 1);
      CleanRunInv(c, r, i - 1);
      assert CleanLinked(c, r, i);
      RunningPhaseNext(c, r[i - 1], r[i]);
    }
  }

  /** When every goroutine has finished and everything succeeded, no phase is shown as
      running. */
  lemma NoRunningPhaseAtTheEnd(c: Config, r: seq<World>)
    requires CleanRun(c, r) && AllDone(r[|r| - 1].threads) && AllSucceeded(c, r[|r| - 1])
    requires r[|r| - 1].store.status.Some?
    ensures r[|r| - 1].store.status.value.runningPhase == ""
  {
    RunningPhaseIsHeld(c, r, |r| - 1);
    SucceededOrBad(c, r, |r| - 1);
  }
}

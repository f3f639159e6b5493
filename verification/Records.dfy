/** What the stored status says about what happened: each theorem ties the status to the
    steps taken or to the log of a goroutine. */
module Records {
  import opened Common
  import opened ActionSets
  import opened Protocol
  import opened Safety
  import opened SafetyTheorems
  import opened Quiescence
  import opened Completion
  import opened Finality

  /** Step `s` leads from world `i` of the run to the next one. */
  ghost predicate Took(c: Config, r: seq<World>, i: nat, s: Step) {
    i + 1 < |r| && Enabled(c, r[i], s) && r[i + 1] == Do(c, r[i], s)
  }

  // ---------------------------------------------------------------- artifacts

  /** Goroutine `a` renders its artifacts, and the rendering returns `arts`. */
  ghost predicate Renders(c: Config, r: seq<World>, i: nat, a: nat, arts: Artifacts) {
    && Took(c, r, i, Local(a, true, arts))
    && r[i].threads[a].pc == Decide(true, true)
  }

  /** From its rendering on a goroutine carries what was rendered. */
  predicate Carries(pc: Pc, arts: Artifacts) {
    pc == RecordRender(Some(arts)) || pc == WriteComplete(Some(arts)) || pc == Done(Succeeded(arts))
  }

  lemma CarriesOn(c: Config, w: World, s: Step, a: nat, arts: Artifacts)
    requires Inv(c, w) && Enabled(c, w, s) && a < |c| && Carries(w.threads[a].pc, arts)
    ensures a < |Do(c, w, s).threads| && Carries(Do(c, w, s).threads[a].pc, arts)
  {
    hide Write, Accepts, Valid, Good, ActInv, LogInv, LaunchFailure;
    if s.Launch? || s.LaunchFail? { assert HandlerOk(c, w, w.handlers[s.h]); }
  }

  lemma CarriesNext(c: Config, w: World, w': World, a: nat, arts: Artifacts)
    requires Inv(c, w) && Next(c, w, w') && a < |c| && a < |w.threads| && Carries(w.threads[a].pc, arts)
    ensures a < |w'.threads| && Carries(w'.threads[a].pc, arts)
  {
    var s: Step :| Enabled(c, w, s) && w' == Do(c, w, s);
    CarriesOn(c, w, s, a, arts);
  }

  lemma {:induction false} CarriesForever(c: Config, r: seq<World>, i: nat, j: nat, a: nat, arts: Artifacts)
    requires Run(c, r) && i <= j < |r| && a < |c| && a < |r[i].threads| && Carries(r[i].threads[a].pc, arts)
    ensures a < |r[j].threads| && Carries(r[j].threads[a].pc, arts)
  {
    hide Inv, Next, Init;
    if i < j {
      CarriesForever(c, r, i, j - 1, a, arts);
      RunInv(c, r, j - 1);
      assert Linked(c, r, j);
      CarriesNext(c, r[j - 1], r[j], a, arts);
    }
  }

  /** The artifacts stored for an action that ended in success are what its rendering
      returned. */
  lemma WhatWasRenderedIsStored(c: Config, r: seq<World>, i: nat, j: nat, a: nat, arts: Artifacts)
    requires CleanRun(c, r) && a < |c| && |c[a].templates| > 0
    requires Renders(c, r, i, a, arts) && i < j < |r| && a < |r[j].threads| && r[j].threads[a].pc.Done?
    ensures r[j].threads[a].pc.result.Succeeded?
    ensures r[j].store.status.Some? && |r[j].store.status.value.actions| == |c|
    ensures r[j].store.status.value.actions[a].artifacts == arts
  {
    CleanIsRun(c, r);
    RunInv(c, r, j);
    CarriesForever(c, r, i + 1, j, a, arts);
    ArtifactsAreTheRendered(c, r, j, a);
  }

  /** Where a step can take a goroutine. */
  ghost predicate MayMove(ac: ActionConfig, s: Step, a: nat, pc: Pc, pc': Pc) {
    || pc' == pc || pc' == Entry(0) || pc' == LaunchFailed
    || (s.Local? && s.a == a && IsLocal(pc) && pc' == LocalNext(ac, pc, s.ok, s.arts))
    || (IsWrite(pc) && (pc' == AfterWrite(pc, true) || pc' == AfterWrite(pc, false)))
  }

  lemma StepMoves(c: Config, w: World, s: Step, a: nat)
    requires Enabled(c, w, s) && a < |c| && a < |w.threads|
    ensures a < |Do(c, w, s).threads| && MayMove(c[a], s, a, w.threads[a].pc, Do(c, w, s).threads[a].pc)
  {
    hide Write, Accepts, Valid, LaunchFailure, LocalNext, AfterWrite;
  }

  lemma CarriesFrom(ac: ActionConfig, s: Step, a: nat, pc: Pc, pc': Pc, arts: Artifacts)
    requires MayMove(ac, s, a, pc, pc') && Carries(pc', arts)
    ensures |ac.templates| > 0 ==> Carries(pc, arts) || (s == Local(a, true, arts) && pc == Decide(true, true))
    ensures |ac.templates| == 0 ==> Carries(pc, arts) || arts == ac.templates
  {
  }

  lemma RenderedBefore(c: Config, r: seq<World>, j: nat, a: nat, arts: Artifacts)
    requires Run(c, r) && 0 < j < |r| && a < |c| && a < |r[j].threads| && |c[a].templates| > 0
    requires Carries(r[j].threads[a].pc, arts)
    ensures a < |r[j - 1].threads|
    ensures Carries(r[j - 1].threads[a].pc, arts) || Renders(c, r, j - 1, a, arts)
  {
    hide Do, Enabled, LocalNext, AfterWrite;
    ThreadsStay(c, r, j - 1);
    assert Linked(c, r, j);
    var s: Step :| Enabled(c, r[j - 1], s) && r[j] == Do(c, r[j - 1], s);
    StepMoves(c, r[j - 1], s, a);
    CarriesFrom(c[a], s, a, r[j - 1].threads[a].pc, r[j].threads[a].pc, arts);
  }

  lemma ThreadsStay(c: Config, r: seq<World>, i: nat)
    requires Run(c, r) && i < |r|
    ensures |r[i].threads| == |c|
  {
    RunInv(c, r, i);
  }

  /** Every action with artifacts that ended in success was rendered, once. */
  lemma {:induction false} SuccessWasRendered(c: Config, r: seq<World>, j: nat, a: nat, arts: Artifacts)
    returns (i: nat)
    requires Run(c, r) && j < |r| && a < |c| && a < |r[j].threads| && |c[a].templates| > 0
    requires Carries(r[j].threads[a].pc, arts)
    ensures i < j && Renders(c, r, i, a, arts)
  {
    hide Next, Inv, Renders;
    assert j > 0;
    RenderedBefore(c, r, j, a, arts);
    if Carries(r[j - 1].threads[a].pc, arts) {
      i := SuccessWasRendered(c, r, j - 1, a, arts);
    } else {
      i := j - 1;
    }
  }

  ghost predicate NothingToRender(c: Config, w: World) {
    forall a, arts | 0 <= a < |c| && a < |w.threads| && Carries(w.threads[a].pc, arts) ::
      |c[a].templates| == 0 ==> arts == c[a].templates
  }

  lemma NothingToRenderStep(c: Config, w: World, s: Step)
    requires NothingToRender(c, w) && Enabled(c, w, s) && |w.threads| == |c|
    ensures NothingToRender(c, Do(c, w, s))
  {
    hide Do, Enabled, LocalNext, AfterWrite;
    var w' := Do(c, w, s);
    forall a, arts | 0 <= a < |c| && a < |w'.threads| && Carries(w'.threads[a].pc, arts) && |c[a].templates| == 0
      ensures arts == c[a].templates
    {
      StepMoves(c, w, s, a);
      CarriesFrom(c[a], s, a, w.threads[a].pc, w'.threads[a].pc, arts);
    }
  }

  lemma {:induction false} NothingToRenderRun(c: Config, r: seq<World>, i: nat)
    requires Run(c, r) && i < |r|
    ensures NothingToRender(c, r[i])
  {
    if i > 0 {
      NothingToRenderRun(c, r, i - 1);
      RunInv(c, r, i - 1);
      assert Linked(c, r, i);
      var s: Step :| Enabled(c, r[i - 1], s) && r[i] == Do(c, r[i - 1], s);
      NothingToRenderStep(c, r[i - 1], s);
    }
  }

  /** What is stored once an action has ended: nothing if its blueprint has no artifacts,
      the templates after a failure, and otherwise what its rendering returned. */
  lemma StoredArtifacts(c: Config, r: seq<World>, j: nat, a: nat)
    requires CleanRun(c, r) && j < |r| && a < |c| && a < |r[j].threads| && r[j].threads[a].pc.Done?
    ensures r[j].store.status.Some? && |r[j].store.status.value.actions| == |c|
    ensures var arts := r[j].store.status.value.actions[a].artifacts;
      if |c[a].templates| == 0 then arts == map[]
      else if r[j].threads[a].events != FullLog(c[a]) then arts == c[a].templates
      else exists i | 0 <= i < j :: Renders(c, r, i, a, arts)
  {
    CleanIsRun(c, r);
    RunInv(c, r, j);
    ArtifactsAreTheRendered(c, r, j, a);
    FinishedAction(c, r, j, a);
    NothingToRenderRun(c, r, j);
    var arts := r[j].store.status.value.actions[a].artifacts;
    if r[j].threads[a].pc.result.Succeeded? {
      assert Carries(r[j].threads[a].pc, arts);
      if |c[a].templates| > 0 { var i := SuccessWasRendered(c, r, j, a, arts); }
    }
  }

  // ---------------------------------------------------------------- failures

  /** How many phases ran with success. */
  function OkRuns(ev: seq<Event>): nat {
    if ev == [] then 0
    else OkRuns(ev[..|ev| - 1]) + if ev[|ev| - 1].PhaseRan? && ev[|ev| - 1].ok then 1 else 0
  }

  lemma OkRunsMore(ev: seq<Event>, e: Event)
    ensures OkRuns(ev + [e]) == OkRuns(ev) + if e.PhaseRan? && e.ok then 1 else 0
  {
    assert (ev + [e])[..|ev|] == ev;
  }

  lemma {:induction false} OkRunsOfCore(i: nat)
    ensures OkRuns(CoreLog(i)) == i
  {
    if i > 0 {
      OkRunsOfCore(i - 1);
      assert CoreLog(i) == CoreLog(i - 1) + [PhaseRan(i - 1, true)];
      OkRunsMore(CoreLog(i - 1), PhaseRan(i - 1, true));
    }
  }

  /** A core phase failed, and this was recorded. */
  predicate CoreFailed(pc: Pc) {
    match pc
    case DeferEntry(coreOk) => !coreOk
    case MarkDefer(coreOk) => !coreOk
    case ExecDefer(coreOk) => !coreOk
    case RecordDefer(coreOk, _) => !coreOk
    case Decide(coreOk, _) => !coreOk
    case Done(RunFailed(coreOk, _)) => !coreOk
    case _ => false
  }

  /** The defer phase has the name of core phase `i` and of no other one. */
  predicate ReMarks(ac: ActionConfig, i: nat) {
    && i < |ac.phases| && ac.deferName == Some(ac.phases[i])
    && forall k | 0 <= k < |ac.phases| && k != i :: ac.phases[k] != ac.phases[i]
  }

  predicate StoppedIn(ph: seq<Phase>, i: nat, state: State) {
    && i < |ph| && ph[i].state == state
    && (forall k | 0 <= k < i :: ph[k].state == Complete)
    && (forall k | i < k < |ph| :: ph[k].state == Pending)
  }

  predicate Recorded(ac: ActionConfig, st: ActionStatus, pc: Pc, ev: seq<Event>) {
    && (CoreFailed(pc) ==>
      StoppedIn(st.phases, OkRuns(ev), if Late(pc) && ReMarks(ac, OkRuns(ev)) then Running else Failed))
    && (pc.RecordDefer? ==> LastWas(ev, DeferRan(pc.ok)))
    && (pc.Decide? && ac.deferName.Some? ==> DeferEndedAs(st, ev, pc.deferOk))
    && (pc.Done? && pc.result.RunFailed? && ac.deferName.Some? ==> DeferEndedAs(st, ev, pc.result.deferOk))
  }

  predicate LastWas(ev: seq<Event>, e: Event) {
    |ev| > 0 && ev[|ev| - 1] == e
  }

  predicate DeferEndedAs(st: ActionStatus, ev: seq<Event>, ok: bool) {
    && LastWas(ev, DeferRan(ok))
    && st.deferPhase.Some? && st.deferPhase.value.state == if ok then Complete else Failed
  }

  lemma LocalRecorded(ac: ActionConfig, st: ActionStatus, pc: Pc, ev: seq<Event>, ok: bool, arts: Artifacts)
    requires IsLocal(pc) && Recorded(ac, st, pc, ev)
    ensures Recorded(ac, st, LocalNext(ac, pc, ok, arts), ev + LocalEvents(ac, pc, ok))
  {
    var more := LocalEvents(ac, pc, ok);
    if more == [] {
      assert ev + more == ev;
    } else {
      OkRunsMore(ev, more[0]);
    }
  }

  /** The first mark of a failed action is its defer phase; the validator lets it through
      exactly if it hits the failed phase alone, or nothing. */
  lemma MarkAfterFailure(ac: ActionConfig, st: ActionStatus, i: nat)
    requires ActionWF(ac, st) && StoppedIn(st.phases, i, Failed) && ac.deferName.Some?
    ensures ReMarks(ac, i) ==>
      PhaseOrderOk(MarkNamed(st.phases, ac.deferName.value)) &&
      StoppedIn(MarkNamed(st.phases, ac.deferName.value), i, Running)
    ensures PhaseOrderOk(MarkNamed(st.phases, ac.deferName.value)) && !ReMarks(ac, i) ==>
      MarkNamed(st.phases, ac.deferName.value) == st.phases
  {
    var ph, ph' := st.phases, MarkNamed(st.phases, ac.deferName.value);
    assert ph'[i].state == Failed || ph'[i].state == Running;
    if PhaseOrderOk(ph') && !ReMarks(ac, i) {
      assert forall k | 0 <= k < |ph| && k != i :: ph'[k].state != Running;
      assert ph' == ph;
    }
  }

  lemma WriteRecorded(c: Config, a: nat, pc: Pc, s: Status, ev: seq<Event>)
    requires WriteReady(c, a, pc, s) && LogInv(c[a], pc, ev) && Recorded(c[a], s.actions[a], pc, ev)
    ensures a < |Write(c[a], a, pc, s).actions|
    ensures Recorded(c[a], Write(c[a], a, pc, s).actions[a], AfterWrite(pc, true), ev)
  {
    var st := s.actions[a];
    assert ActionWF(c[a], st);
    if pc.RecordPhase? && !pc.ok {
      OkRunsOfCore(pc.i);
      OkRunsMore(CoreLog(pc.i), PhaseRan(pc.i, false));
    } else if pc.MarkDefer? && !pc.coreOk {
      assert PhaseOrderOk(Write(c[a], a, pc, s).actions[a].phases);
      MarkAfterFailure(c[a], st, OkRuns(ev));
    }
  }

  /** A rejected mark of the defer phase does not hit the failed phase alone. */
  lemma RejectedRecorded(c: Config, a: nat, pc: Pc, cp: Stored, st: ActionStatus, ev: seq<Event>)
    requires a < |c| && IsMark(pc) && HeldOk(c, a, cp.status, pc) && !Accepts(c, a, pc, cp)
    requires Recorded(c[a], cp.status.value.actions[a], pc, ev) && Recorded(c[a], st, pc, ev)
    ensures Recorded(c[a], st, AfterWrite(pc, false), ev)
  {
    if pc.MarkDefer? && !pc.coreOk && ReMarks(c[a], OkRuns(ev)) {
      var s, i := cp.status.value, OkRuns(ev);
      assert ActionWF(c[a], s.actions[a]);
      MarkAfterFailure(c[a], s.actions[a], i);
      assert s.actions[a].phases[i].state == Failed;
      assert HasFailedPhase(s.actions[a].phases);
      assert Valid(|c|, Write(c[a], a, pc, s));
    }
  }

  ghost predicate RecordedIn(ac: ActionConfig, a: nat, o: Option<Status>, pc: Pc, ev: seq<Event>) {
    o.Some? && a < |o.value.actions| && Recorded(ac, o.value.actions[a], pc, ev)
  }

  ghost predicate RecordsOk(c: Config, store: Stored, a: nat, t: Thread)
    requires a < |c|
  {
    && (t.pc != NotLaunched ==> RecordedIn(c[a], a, store.status, t.pc, t.events))
    && (t.copy.Some? ==> RecordedIn(c[a], a, t.copy.value.status, t.pc, t.events))
  }

  ghost predicate RecordsInv(c: Config, w: World) {
    |w.threads| == |c| && forall a | 0 <= a < |c| :: RecordsOk(c, w.store, a, w.threads[a])
  }

  /** One goroutine and its action change. */
  lemma RecordsReplace(c: Config, w: World, w': World, a: nat)
    requires Inv(c, w) && RecordsInv(c, w) && a < |c| == |w'.threads|
    requires forall b | 0 <= b < |c| && b != a :: w'.threads[b] == w.threads[b]
    requires forall b | 0 <= b < |c| && b != a && w.threads[b].pc != NotLaunched ::
      w'.store.status.Some? && b < |w'.store.status.value.actions| &&
      w'.store.status.value.actions[b] == w.store.status.value.actions[b]
    requires RecordsOk(c, w'.store, a, w'.threads[a])
    ensures RecordsInv(c, w')
  {
    hide Inv, Recorded;
    forall b | 0 <= b < |c|
      ensures RecordsOk(c, w'.store, b, w'.threads[b])
    {
      if b != a { assert RecordsOk(c, w.store, b, w.threads[b]); }
    }
  }

  lemma RecordsWritten(c: Config, w: World, s: Step)
    requires CleanInv(c, w) && RecordsInv(c, w) && Enabled(c, w, s) && s.ThreadUpdate? && s.outcome == Acked
    ensures RecordsInv(c, Do(c, w, s))
  {
    var a, t := s.a, w.threads[s.a];
    assert ThreadOk(c, w.store, a, t) && RecordsOk(c, w.store, a, t);
    assert t.copy.value == w.store;
    WriteFrame(c, a, t.pc, w.store.status.value);
    WriteRecorded(c, a, t.pc, w.store.status.value, t.events);
    RecordsReplace(c, w, Do(c, w, s), a);
  }

  lemma RecordsMoved(c: Config, w: World, s: Step)
    requires CleanInv(c, w) && RecordsInv(c, w) && Enabled(c, w, s)
    requires s.Local? || s.ThreadRejected? || s.ThreadGet? || s.ThreadConflict?
    ensures RecordsInv(c, Do(c, w, s))
  {
    hide Recorded, Valid;
    var a, t := s.a, w.threads[s.a];
    assert ThreadOk(c, w.store, a, t) && RecordsOk(c, w.store, a, t);
    var st := w.store.status.value.actions[a];
    if s.Local? {
      LocalRecorded(c[a], st, t.pc, t.events, s.ok, s.arts);
    } else if s.ThreadRejected? {
      if !IsMark(t.pc) { ResultsAreAccepted(c, w, a); }
      RejectedRecorded(c, a, t.pc, t.copy.value, st, t.events);
    }
    RecordsReplace(c, w, Do(c, w, s), a);
  }

  lemma FreshRecorded(ac: ActionConfig, ev: seq<Event>)
    ensures forall st: ActionStatus :: Recorded(ac, st, Entry(0), ev)
  {
  }

  lemma RecordsOther(c: Config, w: World, s: Step)
    requires CleanInv(c, w) && RecordsInv(c, w) && Enabled(c, w, s) && !IsFault(c, w, s)
    requires !s.ThreadUpdate? && !s.Local? && !s.ThreadRejected? && !s.ThreadGet? && !s.ThreadConflict?
    ensures RecordsInv(c, Do(c, w, s))
  {
    hide Recorded;
    if s.Launch? { FreshRecorded(c[w.handlers[s.h].next], w.threads[w.handlers[s.h].next].events); }
    if s.InitStatus? || s.Gate? || s.Launch? { assert HandlerOk(c, w, w.handlers[s.h]); }
    if s.InitStatus? && s.outcome != Refused { NothingLaunched(c, w); }
    if s.WatchUpdate? { assert WatcherOk(c, w.store, w.watchers[s.w]); }
  }

  lemma RecordsNext(c: Config, w: World, w': World)
    requires CleanInv(c, w) && RecordsInv(c, w) && CleanNext(c, w, w')
    ensures RecordsInv(c, w')
  {
    var s: Step :| Enabled(c, w, s) && !IsFault(c, w, s) && w' == Do(c, w, s);
    match s
    case ThreadUpdate(_, _) => RecordsWritten(c, w, s);
    case Local(_, _, _) => RecordsMoved(c, w, s);
    case ThreadRejected(_) => RecordsMoved(c, w, s);
    case ThreadGet(_) => RecordsMoved(c, w, s);
    case ThreadConflict(_) => RecordsMoved(c, w, s);
    case _ => RecordsOther(c, w, s);
  }

  lemma {:induction false} RecordsRunInv(c: Config, r: seq<World>, i: nat)
    requires CleanRun(c, r) && i < |r|
    ensures RecordsInv(c, r[i])
  {
    hide Recorded, CleanInv, CleanNext;
    if i > 0 {
      RecordsRunInv(c, r, i - 1);
      CleanRunInv(c, r, i - 1);
      assert CleanLinked(c, r, i);
      RecordsNext(c, r[i - 1], r[i]);
    }
  }

  lemma CoreFailure(ac: ActionConfig, coreOk: bool, ev: seq<Event>, i: nat)
    requires CoreEnded(ac, coreOk, ev) && PhaseRan(i, false) in ev
    ensures !coreOk && OkRuns(ev) == i
  {
    if !coreOk {
      var k: nat :| k < |ac.phases| && StoppedAt(k, ev);
      assert ev == CoreLog(k) + [PhaseRan(k, false)];
      OkRunsOfCore(k);
      OkRunsMore(CoreLog(k), PhaseRan(k, false));
    }
  }

  lemma DeferFailure(ac: ActionConfig, coreOk: bool, deferOk: bool, ev: seq<Event>, i: nat)
    requires DeferEnded(ac, coreOk, deferOk, ev) && PhaseRan(i, false) in ev
    ensures !coreOk && OkRuns(ev) == i
  {
    if ac.deferName.None? {
      CoreFailure(ac, coreOk, ev, i);
    } else {
      var init := ev[..|ev| - 1];
      assert ev == init + [ev[|ev| - 1]];
      CoreFailure(ac, coreOk, init, i);
      OkRunsMore(init, ev[|ev| - 1]);
    }
  }

  /** A log with a failed phase is that of a goroutine which recorded the failure, and the
      phase is the one after those that ran with success. */
  lemma FailureInLog(ac: ActionConfig, pc: Pc, ev: seq<Event>, i: nat)
    requires LogInv(ac, pc, ev) && PhaseRan(i, false) in ev && !pc.RecordPhase?
    ensures CoreFailed(pc) && OkRuns(ev) == i
  {
    match pc
    case DeferEntry(coreOk) => CoreFailure(ac, coreOk, ev, i);
    case MarkDefer(coreOk) => CoreFailure(ac, coreOk, ev, i);
    case ExecDefer(coreOk) => CoreFailure(ac, coreOk, ev, i);
    case RecordDefer(coreOk, ok) => DeferFailure(ac, coreOk, ok, ev, i);
    case Decide(coreOk, deferOk) => DeferFailure(ac, coreOk, deferOk, ev, i);
    case Done(RunFailed(coreOk, deferOk)) => DeferFailure(ac, coreOk, deferOk, ev, i);
    case RecordRender(_) => RenderedHasNoFailure(ac, ev, i);
    case WriteComplete(_) => RenderedHasNoFailure(ac, ev, i);
    case Done(_) => RenderedHasNoFailure(ac, ev, i);
    case _ =>
  }

  lemma RenderedHasNoFailure(ac: ActionConfig, ev: seq<Event>, i: nat)
    requires |ev| > 0 && ev[|ev| - 1].Rendered? && DeferEnded(ac, true, true, ev[..|ev| - 1])
    ensures PhaseRan(i, false) !in ev
  {
    var init := ev[..|ev| - 1];
    assert ev == init + [ev[|ev| - 1]];
    if PhaseRan(i, false) in init { DeferFailure(ac, true, true, init, i); }
  }

  /** Once the failure of phase `i` is recorded, the stored phases say so: complete before
      it, failed at it, pending after it.  Only a defer phase that shares its name with
      this phase alone turns it back to running, when it is marked. */
  lemma FailedPhaseIsRecorded(c: Config, r: seq<World>, j: nat, a: nat, i: nat)
    requires CleanRun(c, r) && j < |r| && a < |c| && a < |r[j].threads|
    requires PhaseRan(i, false) in r[j].threads[a].events && !r[j].threads[a].pc.RecordPhase?
    ensures r[j].store.status.Some? && |r[j].store.status.value.actions| == |c| && i < |c[a].phases|
    ensures var ph, remarked := r[j].store.status.value.actions[a].phases, Late(r[j].threads[a].pc) && ReMarks(c[a], i);
      && |ph| == |c[a].phases|
      && (forall k | 0 <= k < i :: ph[k].state == Complete)
      && (forall k | i < k < |ph| :: ph[k].state == Pending)
      && ph[i].state == if remarked then Running else Failed
  {
    CleanIsRun(c, r);
    RunInv(c, r, j);
    RecordsRunInv(c, r, j);
    var t := r[j].threads[a];
    assert ThreadOk(c, r[j].store, a, t) && RecordsOk(c, r[j].store, a, t);
    FailureInLog(c[a], t.pc, t.events, i);
    assert ActionWF(c[a], r[j].store.status.value.actions[a]);
  }

  /** The same for a phase that could not even start: it is the one after those that ran
      with success. */
  lemma UnstartedPhaseIsRecorded(c: Config, r: seq<World>, j: nat, a: nat)
    requires CleanRun(c, r) && j < |r| && a < |c| && a < |r[j].threads| && CoreFailed(r[j].threads[a].pc)
    ensures r[j].store.status.Some? && |r[j].store.status.value.actions| == |c|
    ensures var i := OkRuns(r[j].threads[a].events);
      StoppedIn(r[j].store.status.value.actions[a].phases, i,
                if Late(r[j].threads[a].pc) && ReMarks(c[a], i) then Running else Failed)
  {
    CleanIsRun(c, r);
    RunInv(c, r, j);
    RecordsRunInv(c, r, j);
    assert ThreadOk(c, r[j].store, a, r[j].threads[a]) && RecordsOk(c, r[j].store, a, r[j].threads[a]);
  }

  lemma OnlyDefer(ac: ActionConfig, coreOk: bool, deferOk: bool, ev: seq<Event>, ok: bool)
    requires DeferEnded(ac, coreOk, deferOk, ev) && DeferRan(ok) in ev
    ensures ac.deferName.Some? && LastWas(ev, DeferRan(ok))
  {
    CoreIsOrderly(ac, coreOk, if ac.deferName.None? then ev else ev[..|ev| - 1]);
    assert ac.deferName.Some? ==> ev == ev[..|ev| - 1] + [ev[|ev| - 1]];
  }

  /** Once an action has ended, its defer phase is recorded as it ended. */
  lemma DeferResultIsRecorded(c: Config, r: seq<World>, j: nat, a: nat, ok: bool)
    requires CleanRun(c, r) && j < |r| && a < |c| && a < |r[j].threads|
    requires r[j].threads[a].pc.Done? && DeferRan(ok) in r[j].threads[a].events
    ensures r[j].store.status.Some? && |r[j].store.status.value.actions| == |c|
    ensures var d := r[j].store.status.value.actions[a].deferPhase;
      d.Some? && d.value.state == if ok then Complete else Failed
  {
    hide Recorded, LogInv, ActInv;
    CleanIsRun(c, r);
    RunInv(c, r, j);
    RecordsRunInv(c, r, j);
    var t := r[j].threads[a];
    assert ThreadOk(c, r[j].store, a, t) && RecordsOk(c, r[j].store, a, t);
    assert ActionWF(c[a], r[j].store.status.value.actions[a]);
    DeferOfEnded(c[a], r[j].store.status.value.actions[a], t.pc, t.events, ok);
  }

  lemma DeferOfEnded(ac: ActionConfig, st: ActionStatus, pc: Pc, ev: seq<Event>, ok: bool)
    requires pc.Done? && DeferRan(ok) in ev && ActionWF(ac, st)
    requires LogInv(ac, pc, ev) && ActInv(ac, st, pc) && Recorded(ac, st, pc, ev)
    ensures st.deferPhase.Some? && st.deferPhase.value.state == if ok then Complete else Failed
  {
    if pc.result.RunFailed? {
      OnlyDefer(ac, pc.result.coreOk, pc.result.deferOk, ev, ok);
    } else {
      RenderedLog(ac, pc.result.Succeeded?, ev);
      LogEnds(ac);
    }
  }

  // ---------------------------------------------------------------- failures that do not stay visible

  lemma LogGrows(c: Config, w: World, s: Step, a: nat)
    requires Enabled(c, w, s) && a < |w.threads|
    ensures a < |Do(c, w, s).threads| && w.threads[a].events <= Do(c, w, s).threads[a].events
  {
    hide Write, Accepts, Valid, InitialStatus, LaunchFailure, MaybeComplete;
  }

  lemma {:induction false} LogOnlyGrows(c: Config, r: seq<World>, i: nat, j: nat, a: nat)
    requires Run(c, r) && i <= j < |r| && a < |r[i].threads|
    ensures a < |r[j].threads| && r[i].threads[a].events <= r[j].threads[a].events
  {
    if i < j {
      LogOnlyGrows(c, r, i, j - 1, a);
      assert Linked(c, r, j);
      var s: Step :| Enabled(c, r[j - 1], s) && r[j] == Do(c, r[j - 1], s);
      LogGrows(c, r[j - 1], s, a);
    }
  }

  /** On the way to executing phase `i`, without a failure. */
  predicate OnWay(pc: Pc, i: nat) {
    match pc
    case Entry(k) => k <= i
    case MarkPhase(k) => k <= i
    case ExecPhase(k) => k <= i
    case RecordPhase(k, ok) => ok && k < i
    case _ => false
  }

  lemma PickOnWay(c: Config, w: World, a: nat, i: nat)
    requires CleanInv(c, w) && a < |c| && AtWork(w.threads[a].pc) && Enabled(c, w, Pick(c, w, a))
    requires i < |c[a].phases| && OnWay(w.threads[a].pc, i) && w.threads[a].pc != ExecPhase(i)
    ensures a < |Do(c, w, Pick(c, w, a)).threads| && OnWay(Do(c, w, Pick(c, w, a)).threads[a].pc, i)
  {
    PickThread(c, w, a);
    if Pick(c, w, a).ThreadRejected? && !IsMark(w.threads[a].pc) { ResultsAreAccepted(c, w, a); }
  }

  lemma {:induction false} ReachPhase(c: Config, r: seq<World>, a: nat, i: nat) returns (r': seq<World>)
    requires CleanRun(c, r) && a < |c| == |Last(r).threads| && i < |c[a].phases| && OnWay(Last(r).threads[a].pc, i)
    requires Last(r).store.status.Some? && |Last(r).store.status.value.actions| == |c|
    ensures CleanRun(c, r') && |Last(r').threads| == |c| && Last(r').threads[a].pc == ExecPhase(i)
    ensures Last(r').store.status.Some? && |Last(r').store.status.value.actions| == |c|
    decreases PcLeft(c[a], Last(r).threads[a].pc), CopyLeft(Last(r), Last(r).threads[a])
  {
    hide Do, Enabled, IsFault, Write;
    var w := Last(r);
    if w.threads[a].pc == ExecPhase(i) {
      r' := r;
    } else {
      CleanRunInv(c, r, |r| - 1);
      PickIsEnabled(c, w, a);
      PickMoves(c, w, a);
      PickDecreases(c, w, a);
      PickOnWay(c, w, a, i);
      Extend(c, r, Pick(c, w, a));
      var r1 := r + [Do(c, w, Pick(c, w, a))];
      assert Last(r1) == Do(c, w, Pick(c, w, a));
      r' := ReachPhase(c, r1, a, i);
    }
  }

  /** A recorded failure of a phase shows in its stored state. */
  ghost predicate FailuresShow(c: Config, r: seq<World>) {
    forall j, a, i: nat | 0 <= j < |r| && 0 <= a < |c| && FailureRecorded(c, r[j], a, i) :: ShowsFailed(r[j], a, i)
  }

  ghost predicate FailureRecorded(c: Config, w: World, a: nat, i: nat) {
    a < |w.threads| && PhaseRan(i, false) in w.threads[a].events && !w.threads[a].pc.RecordPhase?
  }

  ghost predicate ShowsFailed(w: World, a: nat, i: nat) {
    && w.store.status.Some? && a < |w.store.status.value.actions|
    && i < |w.store.status.value.actions[a].phases|
    && w.store.status.value.actions[a].phases[i].state == Failed
  }

  /** A defer phase with the name of a core phase, and of no other one, hides its failure. */
  lemma FailureIsHidden(c: Config, a: nat, i: nat) returns (r: seq<World>)
    requires a < |c| && ReMarks(c[a], i)
    ensures CleanRun(c, r) && !FailuresShow(c, r)
  {
    hide Do, Enabled, IsFault, Write, CleanRun;
    var r0 := LaunchAll(c, |c|);
    LaunchedIsReady(c, Last(r0), a);
    var r1 := ReachPhase(c, r0, a, i);
    var r2 := FailPhase(c, r1, a, i);
    r := FinishThread(c, r2, a);
    CleanIsRun(c, r);
    assert r[|r2| - 1] == Last(r2);
    LogOnlyGrows(c, r, |r2| - 1, |r| - 1, a);
    FailedPhaseIsRecorded(c, r, |r| - 1, a, i);
    assert FailureRecorded(c, r[|r| - 1], a, i) && !ShowsFailed(r[|r| - 1], a, i);
  }

  lemma FailPhase(c: Config, r: seq<World>, a: nat, i: nat) returns (r': seq<World>)
    requires CleanRun(c, r) && a < |c| == |Last(r).threads| && Last(r).threads[a].pc == ExecPhase(i)
    ensures CleanRun(c, r') && |Last(r').threads| == |c| && Last(r').store == Last(r).store
    ensures Last(r').threads[a].pc == RecordPhase(i, false) && PhaseRan(i, false) in Last(r').threads[a].events
  {
    Extend(c, r, Local(a, false, map[]));
    r' := r + [Do(c, Last(r), Local(a, false, map[]))];
  }

  /** In fault-free runs recorded failures show, exactly if no defer phase has the name of
      a core phase of its action and of no other one. */
  lemma FailuresShowExactlyWhen(c: Config)
    ensures (forall r: seq<World> | CleanRun(c, r) :: FailuresShow(c, r)) <==>
      forall a, i: nat | 0 <= a < |c| :: !ReMarks(c[a], i)
  {
    if a, i: nat :| 0 <= a < |c| && ReMarks(c[a], i) {
      var r := FailureIsHidden(c, a, i);
    } else {
      forall r: seq<World> | CleanRun(c, r)
        ensures FailuresShow(c, r)
      {
        forall j, a, i: nat | 0 <= j < |r| && 0 <= a < |c| && FailureRecorded(c, r[j], a, i)
          ensures ShowsFailed(r[j], a, i)
        {
          FailedPhaseIsRecorded(c, r, j, a, i);
        }
      }
    }
  }

  // ---------------------------------------------------------------- the running phase

  /** The name a mark shows. */
  function MarkedName(ac: ActionConfig, pc: Pc): string {
    match pc
    case MarkPhase(i) => if i < |ac.phases| then ac.phases[i] else ""
    case MarkDefer(_) => if ac.deferName.Some? then ac.deferName.value else ""
    case _ => ""
  }

  predicate Named(ac: ActionConfig, name: string) {
    name in ac.phases || ac.deferName == Some(name)
  }

  lemma NamedIsInAction(ac: ActionConfig, st: ActionStatus, name: string)
    requires ActionWF(ac, st) && name != ""
    ensures PhaseInAction(name, st) <==> Named(ac, name)
  {
    if name in ac.phases {
      var k :| 0 <= k < |ac.phases| && ac.phases[k] == name;
      assert st.phases[k].name == name;
    }
  }

  /** A mark that takes effect is shown. */
  lemma MarkShows(c: Config, r: seq<World>, i: nat, a: nat, outcome: Outcome)
    requires Run(c, r) && a < |c| && Took(c, r, i, ThreadUpdate(a, outcome)) && outcome != Refused
    requires IsMark(r[i].threads[a].pc)
    ensures r[i + 1].store.status.Some?
    ensures r[i + 1].store.status.value.runningPhase == MarkedName(c[a], r[i].threads[a].pc)
  {
    hide Valid;
    RunInv(c, r, i);
    assert ThreadOk(c, r[i].store, a, r[i].threads[a]);
  }

  /** The last write of a goroutine clears the running phase exactly if it is one of its
      own action. */
  lemma LastWriteClears(c: Config, r: seq<World>, i: nat, a: nat, outcome: Outcome)
    requires Run(c, r) && a < |c| && Took(c, r, i, ThreadUpdate(a, outcome)) && outcome != Refused
    requires r[i].threads[a].pc.WriteComplete? && r[i].store.status.Some?
    ensures r[i + 1].store.status.Some?
    ensures var name := r[i].store.status.value.runningPhase;
      r[i + 1].store.status.value.runningPhase == if Named(c[a], name) then "" else name
  {
    hide Valid;
    RunInv(c, r, i);
    assert ThreadOk(c, r[i].store, a, r[i].threads[a]);
    var s := r[i].store.status.value;
    assert ActionWF(c[a], s.actions[a]);
    if s.runningPhase != "" { NamedIsInAction(c[a], s.actions[a], s.runningPhase); }
  }

  /** Nothing else changes the running phase, except that a failure clears it. */
  lemma OthersLeaveRunningPhase(c: Config, r: seq<World>, i: nat, s: Step)
    requires Run(c, r) && Took(c, r, i, s) && r[i].store.status.Some? && |c| > 0
    requires !(s.ThreadUpdate? && (IsMark(r[i].threads[s.a].pc) || r[i].threads[s.a].pc.WriteComplete?))
    ensures r[i + 1].store.status.Some?
    ensures var s0, s1 := r[i].store.status.value, r[i + 1].store.status.value;
      s1.runningPhase == s0.runningPhase || (s1.runningPhase == "" && s1.state == Failed)
  {
    hide Valid;
    RunInv(c, r, i);
    match s
    case InitStatus(h, _, _) => assert HandlerOk(c, r[i], r[i].handlers[h]);
    case Gate(h, _) => assert HandlerOk(c, r[i], r[i].handlers[h]);
    case FailWrite(h, _) => assert HandlerOk(c, r[i], r[i].handlers[h]);
    case ThreadUpdate(a, _) => assert ThreadOk(c, r[i].store, a, r[i].threads[a]);
    case _ =>
  }

  // ---------------------------------------------------------------- launches and empty sets

  /** A launch that fails fails the set, and its first phase if the goroutine was reached;
      nothing else has changed. */
  lemma LaunchFailureIsRecorded(c: Config, r: seq<World>, i: nat, j: nat, h: nat, reachedRun: bool, outcome: Outcome)
    requires Run(c, r) && i < j < |r| && Took(c, r, i, LaunchFail(h, reachedRun)) && r[i].handlers[h].next < |c|
    requires forall k | i < k <= j :: h < |r[k].handlers| && r[k].handlers[h] == r[i + 1].handlers[h]
    requires Took(c, r, j, FailWrite(h, outcome)) && outcome != Refused
    ensures StateIs(r[j + 1].store.status, Failed) && |r[j + 1].store.status.value.actions| == |c|
    ensures var s, a := r[j + 1].store.status.value, r[i].handlers[h].next;
      && s.runningPhase == ""
      && (forall b, k | 0 <= b < |c| && 0 <= k < |c[b].phases| :: k < |s.actions[b].phases| &&
           s.actions[b].phases[k] == Phase(c[b].phases[k], if reachedRun && b == a && k == 0 then Failed else Pending))
  {
    hide Valid;
    RunInv(c, r, i);
    RunInv(c, r, j);
    assert HandlerOk(c, r[i], r[i].handlers[h]) && HandlerOk(c, r[j], r[j].handlers[h]);
  }

  /** A running set without actions can be completed by an update event. */
  lemma EmptySetCompletes(c: Config, r: seq<World>, k: nat) returns (r': seq<World>)
    requires Run(c, r) && |c| == 0 && StateIs(Last(r).store.status, Running)
    requires k < |Last(r).watchers| && Last(r).watchers[k] == WIdle
    ensures Run(c, r') && r < r' && StateIs(Last(r').store.status, Complete)
  {
    var r1 := EmptySetIsSeen(c, r, k);
    ExtendRun(c, r1, WatchUpdate(k, Acked));
    r' := r1 + [Do(c, Last(r1), WatchUpdate(k, Acked))];
  }

  lemma EmptySetIsSeen(c: Config, r: seq<World>, k: nat) returns (r': seq<World>)
    requires Run(c, r) && |c| == 0 && StateIs(Last(r).store.status, Running)
    requires k < |Last(r).watchers| && Last(r).watchers[k] == WIdle
    ensures Run(c, r') && r < r' && Last(r').store == Last(r).store
    ensures Last(r').store.status.Some? && Valid(0, Last(r').store.status.value)
    ensures |Last(r').watchers| == |Last(r).watchers| && Last(r').watchers[k] == WActive(Some(Last(r').store))
  {
    RunInv(c, r, |r| - 1);
    ExtendRun(c, r, WatchEvent(k));
    var r1 := r + [Do(c, Last(r), WatchEvent(k))];
    ExtendRun(c, r1, WatchGet(k));
    r' := r1 + [Do(c, Last(r1), WatchGet(k))];
  }

  /** An update event that takes effect completes the set for good, and only one without
      actions. */
  lemma UpdateEventCompletes(c: Config, r: seq<World>, i: nat, j: nat, k: nat, outcome: Outcome)
    requires Run(c, r) && Took(c, r, i, WatchUpdate(k, outcome)) && outcome != Refused && i < j < |r|
    ensures |c| == 0 && StateIs(r[j].store.status, Complete)
  {
    RunInv(c, r, i);
    RunInv(c, r, j);
    assert WatcherOk(c, r[i].store, r[i].watchers[k]);
    StateOnlyMovesForward(c, r, i + 1, j);
  }
}

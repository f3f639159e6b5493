/** When `Complete` is final, and when the success counter counts only full successes. */
module Finality {
  import opened Common
  import opened ActionSets
  import opened Protocol
  import opened Safety
  import opened SafetyTheorems
  import opened Quiescence
  import opened Completion

  // ---------------------------------------------------------------- what can undo Complete

  /** The goroutine is about to record a failure that comes after the core phases. */
  predicate FailsLate(pc: Pc) {
    (pc.RecordDefer? && !pc.ok) || pc == RecordRender(None)
  }

  lemma WriteOnComplete(c: Config, a: nat, pc: Pc, s: Status)
    requires a < |c| && IsWrite(pc) && Good(c, s) && s.state == Complete && ActInv(c[a], s.actions[a], pc)
    requires InBounds(c[a], a, pc, s) && !FailsLate(pc)
    ensures Write(c[a], a, pc, s).state == Complete
  {
  }

  /** Only a late failure leaves Complete. */
  lemma OnlyLateFailures(c: Config, w: World, s: Step)
    requires Inv(c, w) && Enabled(c, w, s) && StateIs(w.store.status, Complete)
    ensures StateIs(Do(c, w, s).store.status, Complete) || (s.ThreadUpdate? && FailsLate(w.threads[s.a].pc))
  {
    match s
    case InitStatus(h, _, _) => assert HandlerOk(c, w, w.handlers[h]);
    case Gate(h, _) => assert HandlerOk(c, w, w.handlers[h]);
    case FailWrite(h, _) => assert HandlerOk(c, w, w.handlers[h]);
    case ThreadUpdate(a, outcome) =>
      assert ThreadOk(c, w.store, a, w.threads[a]);
      if outcome != Refused && !FailsLate(w.threads[a].pc) {
        WriteOnComplete(c, a, w.threads[a].pc, w.store.status.value);
      }
    case WatchUpdate(i, _) => assert WatcherOk(c, w.store, w.watchers[i]);
    case _ =>
  }

  /** Only the last write of a goroutine reaches Complete, or the update event of a set
      without actions. */
  lemma OnlyLastWrite(c: Config, w: World, s: Step)
    requires Inv(c, w) && Enabled(c, w, s) && |c| > 0
    ensures StateIs(Do(c, w, s).store.status, Complete) ==>
      StateIs(w.store.status, Complete) || (s.ThreadUpdate? && w.threads[s.a].pc.WriteComplete?)
  {
    match s
    case InitStatus(h, _, _) => assert HandlerOk(c, w, w.handlers[h]);
    case Gate(h, _) => assert HandlerOk(c, w, w.handlers[h]);
    case ThreadUpdate(a, outcome) => assert ThreadOk(c, w.store, a, w.threads[a]);
    case _ =>
  }

  // ---------------------------------------------------------------- failed renderings need templates

  predicate Unrendered(pc: Pc) {
    pc == RecordRender(None) || pc == WriteComplete(None) || pc == Done(RenderFailed)
  }

  ghost predicate RenderInv(c: Config, w: World) {
    forall a | 0 <= a < |c| && a < |w.threads| :: Unrendered(w.threads[a].pc) ==> |c[a].templates| > 0
  }

  lemma RenderStep(c: Config, w: World, s: Step)
    requires RenderInv(c, w) && Enabled(c, w, s)
    ensures RenderInv(c, Do(c, w, s))
  {
    hide Write, Accepts, Valid, InitialStatus, LaunchFailure, MaybeComplete;
  }

  lemma {:induction false} RenderRunInv(c: Config, r: seq<World>, i: nat)
    requires Run(c, r) && i < |r|
    ensures RenderInv(c, r[i])
  {
    if i > 0 {
      RenderRunInv(c, r, i - 1);
      assert Linked(c, r, i);
      var s: Step :| Enabled(c, r[i - 1], s) && r[i] == Do(c, r[i - 1], s);
      RenderStep(c, r[i - 1], s);
    }
  }

  // ---------------------------------------------------------------- a single action

  /** With one action, Complete is its last word. */
  ghost predicate SoleInv(w: World) {
    StateIs(w.store.status, Complete) ==> |w.threads| > 0 && w.threads[0].pc.Done?
  }

  lemma SoleStep(c: Config, w: World, s: Step)
    requires |c| == 1 && Inv(c, w) && SoleInv(w) && Enabled(c, w, s)
    ensures SoleInv(Do(c, w, s))
  {
    var w' := Do(c, w, s);
    if StateIs(w'.store.status, Complete) {
      if StateIs(w.store.status, Complete) {
        DoneStays(c, w, s, 0);
      } else {
        OnlyLastWrite(c, w, s);
      }
    }
  }

  lemma DoneStays(c: Config, w: World, s: Step, a: nat)
    requires Inv(c, w) && Enabled(c, w, s) && a < |c| && w.threads[a].pc.Done?
    ensures a < |Do(c, w, s).threads| && Do(c, w, s).threads[a].pc.Done?
  {
    hide Write, Accepts, Valid, Good, ActInv, LogInv, LaunchFailure;
    if s.Launch? || s.LaunchFail? { assert HandlerOk(c, w, w.handlers[s.h]); }
  }

  lemma {:induction false} SoleRunInv(c: Config, r: seq<World>, i: nat)
    requires |c| == 1 && Run(c, r) && i < |r|
    ensures SoleInv(r[i])
  {
    if i > 0 {
      SoleRunInv(c, r, i - 1);
      RunInv(c, r, i - 1);
      assert Linked(c, r, i);
      var s: Step :| Enabled(c, r[i - 1], s) && r[i] == Do(c, r[i - 1], s);
      SoleStep(c, r[i - 1], s);
    }
  }

  // ---------------------------------------------------------------- goroutines one at a time

  predicate IsMark(pc: Pc) {
    pc.MarkPhase? || pc.MarkDefer?
  }

  function NextPc(ac: ActionConfig, pc: Pc, ok: bool): Pc
    requires AtWork(pc)
  {
    if IsLocal(pc) then LocalNext(ac, pc, ok, map[]) else AfterWrite(pc, !IsMark(pc))
  }

  /** The status after a goroutine at `pc` has moved; the store refuses its marks. */
  ghost function Effect(ac: ActionConfig, a: nat, pc: Pc, s: Status): Status {
    if IsWrite(pc) && !IsMark(pc) && InBounds(ac, a, pc, s) then Write(ac, a, pc, s) else s
  }

  lemma ExtendRun(c: Config, r: seq<World>, s: Step)
    requires Run(c, r) && Enabled(c, Last(r), s)
    ensures Run(c, r + [Do(c, Last(r), s)])
  {
    var r' := r + [Do(c, Last(r), s)];
    forall i | 0 < i < |r'|
      ensures Linked(c, r', i)
    {
      if i < |r| {
        assert Linked(c, r, i);
        assert r'[i] == r[i] && r'[i - 1] == r[i - 1];
      } else {
        assert r'[i - 1] == Last(r) && r'[i] == Do(c, Last(r), s);
        assert Next(c, r'[i - 1], r'[i]);
      }
    }
  }

  /** Launched, with no copies around. */
  ghost predicate Rested(c: Config, w: World, s: Status) {
    && |w.threads| == |c|
    && w.store.status == Some(s)
    && forall a | 0 <= a < |c| :: w.threads[a].copy.None?
  }

  /** Only goroutine `a` moved, to `pc`. */
  ghost predicate MovedTo(w: World, w': World, a: nat, pc: Pc) {
    && |w'.threads| == |w.threads| && a < |w.threads|
    && w'.threads[a].pc == pc
    && forall b | 0 <= b < |w.threads| && b != a :: w'.threads[b] == w.threads[b]
  }

  lemma GetCopy(c: Config, r: seq<World>, a: nat, s: Status) returns (r': seq<World>)
    requires Run(c, r) && Rested(c, Last(r), s) && a < |c| && IsWrite(Last(r).threads[a].pc)
    ensures Run(c, r') && r < r'
    ensures Last(r') == Last(r).(threads := Last(r).threads[a := Last(r).threads[a].(copy := Some(Last(r).store))])
  {
    ExtendRun(c, r, ThreadGet(a));
    r' := r + [Do(c, Last(r), ThreadGet(a))];
  }

  lemma MoveWrite(c: Config, r: seq<World>, a: nat, s: Status) returns (r': seq<World>)
    requires Run(c, r) && Rested(c, Last(r), s) && a < |c| && IsWrite(Last(r).threads[a].pc)
    ensures Run(c, r') && r < r'
    ensures Rested(c, Last(r'), Effect(c[a], a, Last(r).threads[a].pc, s))
    ensures MovedTo(Last(r), Last(r'), a, NextPc(c[a], Last(r).threads[a].pc, true))
  {
    var pc := Last(r).threads[a].pc;
    var r1 := GetCopy(c, r, a, s);
    var w := Last(r1);
    RunInv(c, r1, |r1| - 1);
    assert ThreadOk(c, w.store, a, w.threads[a]);
    WriteInBounds(c, a, pc, s);
    if !IsMark(pc) { ResultsAreAccepted(c, w, a); }
    var step := ThreadUpdate(a, if IsMark(pc) then Refused else Acked);
    ExtendRun(c, r1, step);
    r' := r1 + [Do(c, w, step)];
  }

  /** One move of goroutine `a`, with its access to the store in one go. */
  lemma Move(c: Config, r: seq<World>, a: nat, s: Status, ok: bool) returns (r': seq<World>)
    requires Run(c, r) && Rested(c, Last(r), s) && a < |c| && AtWork(Last(r).threads[a].pc)
    ensures Run(c, r') && r < r'
    ensures Rested(c, Last(r'), Effect(c[a], a, Last(r).threads[a].pc, s))
    ensures MovedTo(Last(r), Last(r'), a, NextPc(c[a], Last(r).threads[a].pc, ok))
  {
    if IsWrite(Last(r).threads[a].pc) {
      r' := MoveWrite(c, r, a, s);
    } else {
      ExtendRun(c, r, Local(a, ok, map[]));
      r' := r + [Do(c, Last(r), Local(a, ok, map[]))];
    }
  }

  lemma EffectOnState(ac: ActionConfig, a: nat, s: Status)
    ensures forall pc: Pc | !IsWrite(pc) || IsMark(pc) :: Effect(ac, a, pc, s) == s
    ensures forall i: nat :: Effect(ac, a, RecordPhase(i, true), s).state == s.state
  {
  }

  ghost predicate AtDefer(w: World, a: nat) {
    a < |w.threads| && w.threads[a].pc == DeferEntry(true)
  }

  /** Goroutine `a` executes its core phases from `i` on. */
  lemma {:induction false} RunCore(c: Config, r: seq<World>, a: nat, s: Status, i: nat)
    returns (r': seq<World>, s': Status)
    requires Run(c, r) && Rested(c, Last(r), s) && s.state == Running
    requires a < |c| && i <= |c[a].phases| && Last(r).threads[a].pc == Entry(i)
    ensures Run(c, r') && r < r' && Rested(c, Last(r'), s') && s'.state == Running
    ensures MovedTo(Last(r), Last(r'), a, DeferEntry(true))
    decreases |c[a].phases| - i
  {
    hide Effect, Write, Run;
    EffectOnState(c[a], a, s);
    if i == |c[a].phases| {
      r' := Move(c, r, a, s, true);
      s' := s;
    } else {
      var r1 := Move(c, r, a, s, true);
      var r2 := Move(c, r1, a, s, true);
      var r3 := Move(c, r2, a, s, true);
      var s4 := Effect(c[a], a, RecordPhase(i, true), s);
      var r4 := Move(c, r3, a, s, true);
      r', s' := RunCore(c, r4, a, s4, i + 1);
    }
  }

  lemma {:induction false} RunAllCore(c: Config, k: nat) returns (r: seq<World>, s: Status)
    requires k <= |c|
    ensures Run(c, r) && Rested(c, Last(r), s) && s.state == Running
    ensures forall a | 0 <= a < k :: AtDefer(Last(r), a)
    ensures forall a | k <= a < |c| :: Last(r).threads[a].pc == Entry(0)
  {
    if k == 0 {
      r := LaunchAll(c, |c|);
      CleanIsRun(c, r);
      s := Started(c);
    } else {
      var r1, s1 := RunAllCore(c, k - 1);
      r, s := RunCore(c, r1, k - 1, s1, 0);
      forall a | 0 <= a < k
        ensures AtDefer(Last(r), a)
      {
        if a < k - 1 { assert AtDefer(Last(r1), a); }
      }
    }
  }

  // ---------------------------------------------------------------- from Complete to Failed

  /** All core phases are complete and nothing has failed. */
  ghost predicate CoreComplete(s: Status) {
    && s.state != Failed
    && forall a | 0 <= a < |s.actions| :: AllComplete(s.actions[a].phases)
  }

  lemma CoreIsComplete(c: Config, r: seq<World>, s: Status)
    requires Run(c, r) && Rested(c, Last(r), s) && s.state == Running
    requires forall a | 0 <= a < |c| :: AtDefer(Last(r), a)
    ensures CoreComplete(s) && |s.actions| == |c|
  {
    RunInv(c, r, |r| - 1);
    assert Good(c, s);
    forall a | 0 <= a < |c|
      ensures AllComplete(s.actions[a].phases)
    {
      assert AtDefer(Last(r), a) && ThreadOk(c, Last(r).store, a, Last(r).threads[a]);
    }
  }

  lemma EffectKeepsCore(ac: ActionConfig, a: nat, pc: Pc, s: Status)
    requires CoreComplete(s) && a < |s.actions| && IsWrite(pc) && !FailsLate(pc) && !pc.RecordPhase?
    ensures CoreComplete(Effect(ac, a, pc, s)) && |Effect(ac, a, pc, s).actions| == |s.actions|
    ensures pc.WriteComplete? ==> Effect(ac, a, pc, s).state == Complete
    ensures !pc.WriteComplete? ==> Effect(ac, a, pc, s).state == s.state
  {
    var s' := Effect(ac, a, pc, s);
    forall b | 0 <= b < |s'.actions|
      ensures AllComplete(s'.actions[b].phases)
    {
      assert AllComplete(s.actions[b].phases) && s'.actions[b].phases == s.actions[b].phases;
    }
  }

  /** Goroutine `a` finishes; its defer phase, if any, and its rendering succeed. */
  lemma FinishWell(c: Config, r: seq<World>, a: nat, s: Status) returns (r': seq<World>, s': Status)
    requires Run(c, r) && Rested(c, Last(r), s) && CoreComplete(s) && a < |c| == |s.actions| && AtDefer(Last(r), a)
    ensures Run(c, r') && r < r' && Rested(c, Last(r'), s') && s'.state == Complete && |s'.actions| == |c|
    ensures CoreComplete(s') && |Last(r').threads| == |c|
    ensures forall b | 0 <= b < |c| && b != a :: Last(r').threads[b] == Last(r).threads[b]
  {
    var r1, s1 := DeferWell(c, r, a, s);
    var r2 := Move(c, r1, a, s1, true);
    var arts := Last(r2).threads[a].pc.arts;
    EffectKeepsCore(c[a], a, RecordRender(arts), s1);
    var s3 := Effect(c[a], a, RecordRender(arts), s1);
    var r3 := Move(c, r2, a, s1, true);
    EffectKeepsCore(c[a], a, WriteComplete(arts), s3);
    s' := Effect(c[a], a, WriteComplete(arts), s3);
    r' := Move(c, r3, a, s3, true);
  }

  lemma DeferWell(c: Config, r: seq<World>, a: nat, s: Status) returns (r': seq<World>, s': Status)
    requires Run(c, r) && Rested(c, Last(r), s) && CoreComplete(s) && a < |c| == |s.actions| && AtDefer(Last(r), a)
    ensures Run(c, r') && r < r' && Rested(c, Last(r'), s') && CoreComplete(s') && |s'.actions| == |c|
    ensures s'.state == s.state
    ensures MovedTo(Last(r), Last(r'), a, Decide(true, true))
  {
    r' := Move(c, r, a, s, true);
    s' := s;
    if c[a].deferName.Some? {
      var r1 := Move(c, r', a, s, true);
      var r2 := Move(c, r1, a, s, true);
      EffectKeepsCore(c[a], a, RecordDefer(true, true), s);
      s' := Effect(c[a], a, RecordDefer(true, true), s);
      r' := Move(c, r2, a, s, true);
    }
  }

  /** Goroutine `a` fails after its core phases. */
  lemma FailLate(c: Config, r: seq<World>, a: nat, s: Status) returns (r': seq<World>)
    requires Run(c, r) && Rested(c, Last(r), s) && a < |c| == |s.actions| && AtDefer(Last(r), a)
    requires c[a].deferName.Some? || |c[a].templates| > 0
    ensures Run(c, r') && r < r' && StateIs(Last(r').store.status, Failed)
  {
    var r1 := Move(c, r, a, s, true);
    if c[a].deferName.Some? {
      var r2 := Move(c, r1, a, s, true);
      var r3 := Move(c, r2, a, s, false);
      r' := Move(c, r3, a, s, true);
    } else {
      var r2 := Move(c, r1, a, s, false);
      r' := Move(c, r2, a, s, true);
    }
  }

  /** Complete is never left. */
  ghost predicate CompleteIsFinal(r: seq<World>) {
    forall i, j | 0 <= i <= j < |r| :: StateIs(r[i].store.status, Complete) ==> StateIs(r[j].store.status, Complete)
  }

  /** No action has anything that could fail once its core phases are complete. */
  ghost predicate NothingLate(c: Config) {
    forall a | 0 <= a < |c| :: c[a].deferName.None? && |c[a].templates| == 0
  }

  /** Whenever another action has a defer phase or artifacts, some run reports Complete
      and then Failed. */
  lemma CompleteCanBeLeft(c: Config) returns (r: seq<World>)
    requires |c| > 1 && !NothingLate(c)
    ensures Run(c, r) && !CompleteIsFinal(r)
  {
    var a :| 0 <= a < |c| && (c[a].deferName.Some? || |c[a].templates| > 0);
    var b := if a == 0 then 1 else 0;
    var r1, s1 := RunAllCore(c, |c|);
    CoreIsComplete(c, r1, s1);
    assert AtDefer(Last(r1), b) && AtDefer(Last(r1), a);
    var r2, s2 := FinishWell(c, r1, b, s1);
    r := FailLate(c, r2, a, s2);
    assert r[|r2| - 1] == Last(r2);
    assert StateIs(r[|r2| - 1].store.status, Complete) && !StateIs(r[|r| - 1].store.status, Complete);
  }

  lemma NoLateFailure(c: Config, w: World, a: nat)
    requires Inv(c, w) && RenderInv(c, w) && StateIs(w.store.status, Complete) && a < |c|
    requires NothingLate(c) || (|c| == 1 && SoleInv(w))
    ensures !FailsLate(w.threads[a].pc)
  {
    assert ThreadOk(c, w.store, a, w.threads[a]);
  }

  lemma CompleteStep(c: Config, w: World, w': World)
    requires Inv(c, w) && RenderInv(c, w) && StateIs(w.store.status, Complete) && Next(c, w, w')
    requires |c| == 0 || NothingLate(c) || (|c| == 1 && SoleInv(w))
    ensures StateIs(w'.store.status, Complete)
  {
    var s: Step :| Enabled(c, w, s) && w' == Do(c, w, s);
    OnlyLateFailures(c, w, s);
    if s.ThreadUpdate? { NoLateFailure(c, w, s.a); }
  }

  lemma RunFacts(c: Config, r: seq<World>, i: nat)
    requires Run(c, r) && i < |r|
    ensures Inv(c, r[i]) && RenderInv(c, r[i]) && (|c| == 1 ==> SoleInv(r[i]))
  {
    RunInv(c, r, i);
    RenderRunInv(c, r, i);
    if |c| == 1 { SoleRunInv(c, r, i); }
  }

  lemma {:induction false} CompleteStaysOn(c: Config, r: seq<World>, i: nat, j: nat)
    requires Run(c, r) && i <= j < |r| && (|c| <= 1 || NothingLate(c)) && StateIs(r[i].store.status, Complete)
    ensures StateIs(r[j].store.status, Complete)
  {
    if i < j {
      CompleteStaysOn(c, r, i, j - 1);
      RunFacts(c, r, j - 1);
      assert Linked(c, r, j);
      CompleteStep(c, r[j - 1], r[j]);
    }
  }

  /** A reported completion is final, whatever fails, exactly for an ActionSet with at
      most one action or without defer phases and artifacts. */
  lemma CompleteIsFinalExactlyWhen(c: Config)
    ensures (forall r: seq<World> | Run(c, r) :: CompleteIsFinal(r)) <==> |c| <= 1 || NothingLate(c)
  {
    if |c| <= 1 || NothingLate(c) {
      forall r: seq<World> | Run(c, r)
        ensures CompleteIsFinal(r)
      {
        forall i, j | 0 <= i <= j < |r| && StateIs(r[i].store.status, Complete)
          ensures StateIs(r[j].store.status, Complete)
        {
          CompleteStaysOn(c, r, i, j);
        }
      }
    } else {
      var r := CompleteCanBeLeft(c);
    }
  }

  // ---------------------------------------------------------------- the success counter

  /** At all times the success counter is the number of full successes. */
  ghost predicate CountsFullSuccesses(c: Config, r: seq<World>) {
    forall i | 0 <= i < |r| :: |r[i].threads| == |c| && r[i].successes == Logged(c, r[i].threads, true)
  }

  /** Goroutine `a` ends with a failed rendering. */
  lemma FailRendering(c: Config, a: nat) returns (r: seq<World>)
    requires a < |c| && |c[a].templates| > 0
    ensures Run(c, r) && |Last(r).threads| == |c| && Last(r).threads[a].pc == Done(RenderFailed)
  {
    hide Write, Run, CoreComplete;
    var r0, s0 := RunAllCore(c, |c|);
    CoreIsComplete(c, r0, s0);
    assert AtDefer(Last(r0), a);
    var r1, s1 := DeferWell(c, r0, a, s0);
    var r2 := Move(c, r1, a, s1, false);
    var r3 := Move(c, r2, a, s1, true);
    r := Move(c, r3, a, Effect(c[a], a, RecordRender(None), s1), true);
  }

  /** The success counter counts full successes only, in every run, exactly for an
      ActionSet without artifacts. */
  lemma SuccessesAreFullExactlyWhen(c: Config)
    ensures (forall r: seq<World> | Run(c, r) :: CountsFullSuccesses(c, r)) <==>
      forall a | 0 <= a < |c| :: |c[a].templates| == 0
  {
    if a :| 0 <= a < |c| && |c[a].templates| > 0 {
      var r := FailRendering(c, a);
      FinishedAction(c, r, |r| - 1, a);
      SuccessesCountFailedRenderings(c, r, |r| - 1);
      assert EndedWith(c[a], r[|r| - 1].threads[a], false);
      assert !CountsFullSuccesses(c, r);
    } else {
      forall r: seq<World> | Run(c, r)
        ensures CountsFullSuccesses(c, r)
      {
        forall i | 0 <= i < |r|
          ensures |r[i].threads| == |c| && r[i].successes == Logged(c, r[i].threads, true)
        {
          AllRendered(c, r, i);
        }
      }
    }
  }

  lemma AllRendered(c: Config, r: seq<World>, i: nat)
    requires Run(c, r) && i < |r| && forall a | 0 <= a < |c| :: |c[a].templates| == 0
    ensures |r[i].threads| == |c| && r[i].successes == Logged(c, r[i].threads, true)
  {
    SuccessesCountFailedRenderings(c, r, i);
    RenderRunInv(c, r, i);
    forall a | 0 <= a < |c|
      ensures !EndedWith(c[a], r[i].threads[a], false)
    {
      if EndedWith(c[a], r[i].threads[a], false) { FinishedAction(c, r, i, a); }
    }
  }
}

/** Fault-free runs can always be brought to an end, and the naming condition of
    `Quiescence.QuiescentState` is exact. */
module Completion {
  import opened Common
  import opened ActionSets
  import opened Protocol
  import opened Safety
  import opened SafetyTheorems
  import opened Quiescence

  function Last(r: seq<World>): World
    requires |r| > 0
  {
    r[|r| - 1]
  }

  lemma Extend(c: Config, r: seq<World>, s: Step)
    requires CleanRun(c, r) && Enabled(c, Last(r), s) && !IsFault(c, Last(r), s)
    ensures CleanRun(c, r + [Do(c, Last(r), s)])
  {
    var r' := r + [Do(c, Last(r), s)];
    forall i | 0 < i < |r'|
      ensures CleanLinked(c, r', i)
    {
      if i < |r| {
        assert CleanLinked(c, r, i);
        assert r'[i] == r[i] && r'[i - 1] == r[i - 1];
      } else {
        assert r'[i - 1] == Last(r) && r'[i] == Do(c, Last(r), s);
        assert CleanNext(c, r'[i - 1], r'[i]);
      }
    }
  }

  // ---------------------------------------------------------------- one goroutine to its end

  predicate AtWork(pc: Pc) {
    IsLocal(pc) || IsWrite(pc)
  }

  /** Nothing has failed so far. */
  predicate Fine(pc: Pc) {
    !Bad(pc) && !FailsNow(pc)
  }

  function PcLeft(ac: ActionConfig, pc: Pc): int {
    var n := |ac.phases|;
    match pc
    case Entry(i) => 11 + 4 * (n - i)
    case MarkPhase(i) => 10 + 4 * (n - i)
    case ExecPhase(i) => 9 + 4 * (n - i)
    case RecordPhase(i, _) => if i < n then 8 + 4 * (n - i) else 8
    case DeferEntry(_) => 10
    case MarkDefer(_) => 9
    case ExecDefer(_) => 8
    case RecordDefer(_, _) => 7
    case Decide(_, _) => 6
    case RecordRender(_) => 5
    case WriteComplete(_) => 4
    case _ => 0
  }

  function CopyLeft(w: World, t: Thread): nat {
    if t.copy.None? then 1 else if t.copy.value.version == w.store.version then 0 else 2
  }

  /** The mark of the defer phase is over. */
  predicate Late(pc: Pc) {
    pc.ExecDefer? || pc.RecordDefer? || pc.Decide? || pc.RecordRender? || pc.WriteComplete? || pc.Done?
  }

  predicate LastRunning(ph: seq<Phase>) {
    |ph| > 0 && ph[|ph| - 1].state == Running
  }

  /** The core phase that shares its name with the defer phase is, or will be, turned
      back to running. */
  ghost predicate Spoiled(c: Config, w: World, a: nat) {
    && a < |c| && a < |w.threads|
    && w.store.status.Some? && a < |w.store.status.value.actions|
    && if Late(w.threads[a].pc) then LastRunning(w.store.status.value.actions[a].phases)
    else
      && w.store.status.value.state == Running
      && (w.threads[a].copy.Some? ==> StateIs(w.threads[a].copy.value.status, Running))
  }

  /** Everything but goroutine `a` and its action is as before. */
  ghost predicate OnlyMoved(c: Config, w: World, w': World, a: nat) {
    && |w'.threads| == |w.threads| == |c| && a < |c|
    && (forall b | 0 <= b < |c| && b != a :: w'.threads[b] == w.threads[b])
    && w.store.status.Some? && w'.store.status.Some?
    && |w'.store.status.value.actions| == |w.store.status.value.actions| == |c|
    && (forall b | 0 <= b < |c| && b != a :: w'.store.status.value.actions[b] == w.store.status.value.actions[b])
  }

  ghost function Pick(c: Config, w: World, a: nat): Step
    requires a < |c| == |w.threads| && AtWork(w.threads[a].pc)
  {
    var t := w.threads[a];
    if IsLocal(t.pc) then Local(a, true, map[])
    else if t.copy.None? then ThreadGet(a)
    else if !Accepts(c, a, t.pc, t.copy.value) then ThreadRejected(a)
    else if t.copy.value.version == w.store.version then ThreadUpdate(a, Acked)
    else ThreadConflict(a)
  }

  lemma PickIsEnabled(c: Config, w: World, a: nat)
    requires CleanInv(c, w) && a < |c| && AtWork(w.threads[a].pc)
    ensures Enabled(c, w, Pick(c, w, a)) && !IsFault(c, w, Pick(c, w, a))
  {
    var t := w.threads[a];
    assert ThreadOk(c, w.store, a, t);
    if t.copy.Some? { WriteInBounds(c, a, t.pc, t.copy.value.status.value); }
  }

  lemma PickMoves(c: Config, w: World, a: nat)
    requires CleanInv(c, w) && a < |c| && AtWork(w.threads[a].pc) && Enabled(c, w, Pick(c, w, a))
    ensures var w' := Do(c, w, Pick(c, w, a));
      && OnlyMoved(c, w, w', a)
      && (AtWork(w'.threads[a].pc) || w'.threads[a].pc.Done?)
  {
    PickThread(c, w, a);
    PickStore(c, w, a);
    assert ThreadOk(c, w.store, a, w.threads[a]);
    NextPcs(c[a], w.threads[a].pc);
    var s := Pick(c, w, a);
    if s.ThreadUpdate? { WriteFrame(c, a, w.threads[a].pc, w.store.status.value); }
  }

  lemma NextPcs(ac: ActionConfig, pc: Pc)
    ensures IsLocal(pc) ==> AtWork(LocalNext(ac, pc, true, map[])) || LocalNext(ac, pc, true, map[]).Done?
    ensures IsWrite(pc) ==> AtWork(AfterWrite(pc, true)) || AfterWrite(pc, true).Done?
    ensures IsWrite(pc) ==> AtWork(AfterWrite(pc, false)) || AfterWrite(pc, false).Done?
  {
  }

  /** What the picked step makes of the store and of the other goroutines. */
  lemma PickStore(c: Config, w: World, a: nat)
    requires Inv(c, w) && a < |c| && AtWork(w.threads[a].pc) && Enabled(c, w, Pick(c, w, a))
    ensures var t, s, w' := w.threads[a], Pick(c, w, a), Do(c, w, Pick(c, w, a));
      && |w'.threads| == |w.threads|
      && (forall b | 0 <= b < |w.threads| && b != a :: w'.threads[b] == w.threads[b])
      && (!s.ThreadUpdate? ==> w'.store == w.store)
      && (s.ThreadUpdate? ==>
            && t.copy == Some(w.store) && w.store.status.Some? && InBounds(c[a], a, t.pc, w.store.status.value)
            && w'.store == Put(w.store, Write(c[a], a, t.pc, w.store.status.value)))
  {
    assert ThreadOk(c, w.store, a, w.threads[a]);
  }

  /** What the picked step makes of the goroutine. */
  lemma PickThread(c: Config, w: World, a: nat)
    requires a < |c| == |w.threads| && AtWork(w.threads[a].pc) && Enabled(c, w, Pick(c, w, a))
    ensures var t, s, w' := w.threads[a], Pick(c, w, a), Do(c, w, Pick(c, w, a));
      && a < |w'.threads|
      && (s.Local? ==> w'.threads[a].pc == LocalNext(c[a], t.pc, true, map[]) && w'.threads[a].copy.None?)
      && (s.ThreadGet? ==> w'.threads[a] == t.(copy := Some(w.store)) && w'.store == w.store)
      && (s.ThreadConflict? ==> w'.threads[a] == t.(copy := None) && t.copy.value.version != w.store.version)
      && (s.ThreadUpdate? ==> w'.threads[a].pc == AfterWrite(t.pc, true) && w'.threads[a].copy.None?)
      && (s.ThreadRejected? ==> w'.threads[a].pc == AfterWrite(t.pc, false) && w'.threads[a].copy.None?)
  {
  }

  lemma PcFine(ac: ActionConfig, pc: Pc)
    requires Fine(pc)
    ensures IsLocal(pc) ==> Fine(LocalNext(ac, pc, true, map[]))
    ensures IsWrite(pc) ==> Fine(AfterWrite(pc, true))
    ensures pc.MarkPhase? || pc.MarkDefer? ==> Fine(AfterWrite(pc, false))
  {
  }

  lemma PickIsFine(c: Config, w: World, a: nat)
    requires CleanInv(c, w) && a < |c| && AtWork(w.threads[a].pc) && Enabled(c, w, Pick(c, w, a))
    requires Fine(w.threads[a].pc)
    ensures a < |Do(c, w, Pick(c, w, a)).threads| && Fine(Do(c, w, Pick(c, w, a)).threads[a].pc)
  {
    var t, s := w.threads[a], Pick(c, w, a);
    PickThread(c, w, a);
    PcFine(c[a], t.pc);
    if s.ThreadRejected? && !t.pc.MarkPhase? && !t.pc.MarkDefer? { ResultsAreAccepted(c, w, a); }
  }

  lemma PcDecreases(ac: ActionConfig, pc: Pc, ev: seq<Event>)
    requires LogInv(ac, pc, ev)
    ensures 0 <= PcLeft(ac, pc)
    ensures IsLocal(pc) ==> 0 <= PcLeft(ac, LocalNext(ac, pc, true, map[])) < PcLeft(ac, pc)
    ensures IsWrite(pc) ==> 0 <= PcLeft(ac, AfterWrite(pc, true)) < PcLeft(ac, pc)
    ensures IsWrite(pc) ==> 0 <= PcLeft(ac, AfterWrite(pc, false)) < PcLeft(ac, pc)
  {
  }

  ghost predicate Closer(c: Config, w: World, w': World, a: nat) {
    && a < |c| && a < |w.threads| && a < |w'.threads|
    && 0 <= PcLeft(c[a], w'.threads[a].pc) <= PcLeft(c[a], w.threads[a].pc)
    && (PcLeft(c[a], w'.threads[a].pc) == PcLeft(c[a], w.threads[a].pc) ==>
          CopyLeft(w', w'.threads[a]) < CopyLeft(w, w.threads[a]))
  }

  lemma PickDecreases(c: Config, w: World, a: nat)
    requires CleanInv(c, w) && a < |c| && AtWork(w.threads[a].pc) && Enabled(c, w, Pick(c, w, a))
    ensures Closer(c, w, Do(c, w, Pick(c, w, a)), a)
  {
    assert ThreadOk(c, w.store, a, w.threads[a]);
    PickThread(c, w, a);
    PcDecreases(c[a], w.threads[a].pc, w.threads[a].events);
  }

  /** The mark that spoils a finished action gets through while the set is running. */
  lemma SpoilingMark(c: Config, a: nat, s: Status)
    requires a < |c| && Good(c, s) && s.state == Running && Collides(c[a])
    requires ActInv(c[a], s.actions[a], MarkDefer(true))
    ensures var s' := MarkRunning(s, a, c[a].deferName.value);
      && Valid(|c|, s')
      && LastRunning(s'.actions[a].phases)
  {
    var ph := s.actions[a].phases;
    assert ActionWF(c[a], s.actions[a]);
    var z := |ph| - 1;
    var s' := MarkRunning(s, a, c[a].deferName.value);
    assert s'.actions[a].phases == ph[z := ph[z].(state := Running)];
  }

  lemma LateSteps(ac: ActionConfig, pc: Pc, acked: bool)
    requires ac.deferName.Some?
    ensures IsLocal(pc) ==> Late(LocalNext(ac, pc, true, map[])) == Late(pc)
    ensures IsWrite(pc) && Fine(pc) && (acked || !pc.RecordPhase?) ==>
      Late(AfterWrite(pc, acked)) == (Late(pc) || pc.MarkDefer?)
  {
  }

  lemma WriteSpoils(c: Config, a: nat, pc: Pc, s: Status)
    requires a < |c| && IsWrite(pc) && Fine(pc) && InBounds(c[a], a, pc, s)
    ensures |Write(c[a], a, pc, s).actions| == |s.actions|
    ensures !Late(pc) ==> Write(c[a], a, pc, s).state == s.state
    ensures Late(pc) ==> Write(c[a], a, pc, s).actions[a].phases == s.actions[a].phases
  {
  }

  lemma PickSpoils(c: Config, w: World, a: nat)
    requires CleanInv(c, w) && a < |c| && AtWork(w.threads[a].pc) && Enabled(c, w, Pick(c, w, a))
    requires Collides(c[a]) && Fine(w.threads[a].pc) && Spoiled(c, w, a)
    ensures Spoiled(c, Do(c, w, Pick(c, w, a)), a)
  {
    var t, s := w.threads[a], Pick(c, w, a);
    PickThread(c, w, a);
    PickStore(c, w, a);
    assert ThreadOk(c, w.store, a, t);
    LateSteps(c[a], t.pc, s.ThreadUpdate?);
    if s.ThreadUpdate? {
      WriteSpoils(c, a, t.pc, w.store.status.value);
      if t.pc.MarkDefer? { SpoilingMark(c, a, w.store.status.value); }
    } else if s.ThreadRejected? {
      if t.pc.MarkDefer? { SpoilingMark(c, a, t.copy.value.status.value); }
      else if !t.pc.MarkPhase? { ResultsAreAccepted(c, w, a); }
    }
  }

  /** One step of a goroutine at work, without a fault. */
  lemma StepThread(c: Config, r: seq<World>, a: nat) returns (r': seq<World>)
    requires CleanRun(c, r) && a < |c| == |Last(r).threads| && AtWork(Last(r).threads[a].pc)
    ensures CleanRun(c, r') && r <= r' && OnlyMoved(c, Last(r), Last(r'), a) && Closer(c, Last(r), Last(r'), a)
    ensures AtWork(Last(r').threads[a].pc) || Last(r').threads[a].pc.Done?
    ensures Fine(Last(r).threads[a].pc) ==> Fine(Last(r').threads[a].pc)
    ensures Collides(c[a]) && Fine(Last(r).threads[a].pc) && Spoiled(c, Last(r), a) ==> Spoiled(c, Last(r'), a)
  {
    hide Do, Enabled, IsFault, OnlyMoved, Closer, Spoiled, Fine, PcLeft, CopyLeft;
    var w := Last(r);
    CleanRunInv(c, r, |r| - 1);
    PickIsEnabled(c, w, a);
    PickMoves(c, w, a);
    PickDecreases(c, w, a);
    if Fine(w.threads[a].pc) {
      PickIsFine(c, w, a);
      if Collides(c[a]) && Spoiled(c, w, a) { PickSpoils(c, w, a); }
    }
    Extend(c, r, Pick(c, w, a));
    r' := r + [Do(c, w, Pick(c, w, a))];
  }

  /** A goroutine at work can be brought to its end without a fault, leaving the others
      alone; if nothing had failed, it ends in success. */
  lemma {:induction false} FinishThread(c: Config, r: seq<World>, a: nat) returns (r': seq<World>)
    requires CleanRun(c, r) && a < |c| == |Last(r).threads|
    requires AtWork(Last(r).threads[a].pc) || Last(r).threads[a].pc.Done?
    requires Last(r).store.status.Some? && |Last(r).store.status.value.actions| == |c|
    ensures CleanRun(c, r') && r <= r' && OnlyMoved(c, Last(r), Last(r'), a)
    ensures Last(r').threads[a].pc.Done?
    ensures Fine(Last(r).threads[a].pc) ==> EndedWell(Last(r').threads[a].pc)
    ensures Collides(c[a]) && Fine(Last(r).threads[a].pc) && Spoiled(c, Last(r), a) ==> Spoiled(c, Last(r'), a)
    decreases PcLeft(c[a], Last(r).threads[a].pc), CopyLeft(Last(r), Last(r).threads[a])
  {
    hide CleanLinked, Init, PcLeft, CopyLeft, Spoiled;
    var w := Last(r);
    if w.threads[a].pc.Done? {
      r' := r;
    } else {
      var r1 := StepThread(c, r, a);
      r' := FinishThread(c, r1, a);
    }
  }

  ghost predicate Ready(c: Config, w: World) {
    && |w.threads| == |c| && w.store.status.Some? && |w.store.status.value.actions| == |c|
    && forall a | 0 <= a < |c| :: AtWork(w.threads[a].pc) || w.threads[a].pc.Done?
  }

  /** Every fault-free run in which all actions were launched can be continued until
      every goroutine has finished: no interleaving runs into a dead end. */
  lemma {:induction false} CanAlwaysFinish(c: Config, r: seq<World>, k: nat) returns (r': seq<World>)
    requires CleanRun(c, r) && k <= |c| && Ready(c, Last(r))
    requires forall a | 0 <= a < k :: Last(r).threads[a].pc.Done?
    ensures CleanRun(c, r') && Ready(c, Last(r')) && AllDone(Last(r').threads)
    ensures forall a | 0 <= a < |c| && Fine(Last(r).threads[a].pc) :: EndedWell(Last(r').threads[a].pc)
    ensures forall a | 0 <= a < |c| && Last(r).threads[a].pc.Done? ::
      Last(r').store.status.value.actions[a] == Last(r).store.status.value.actions[a]
    decreases |c| - k
  {
    if k == |c| {
      r' := r;
      CleanRunInv(c, r, |r| - 1);
    } else if Last(r).threads[k].pc.Done? {
      r' := CanAlwaysFinish(c, r, k + 1);
    } else {
      var r1 := FinishThread(c, r, k);
      r' := CanAlwaysFinish(c, r1, k + 1);
    }
  }

  // ---------------------------------------------------------------- launching everything

  function FirstWorld(c: Config): World {
    World(Stored(0, None), [HIdle], seq(|c|, a => Thread(NotLaunched, None, [])), [], 0, 0)
  }

  ghost predicate Launched(c: Config, w: World, k: nat) {
    && |w.threads| == |c| && |w.handlers| == 1 && k <= |c|
    && w.handlers[0].HLaunch? && w.handlers[0].next == k
    && w.store.status == Some(Started(c))
    && (forall a | 0 <= a < k :: w.threads[a] == Thread(Entry(0), None, []))
    && (forall a | k <= a < |c| :: w.threads[a] == Thread(NotLaunched, None, []))
  }

  lemma OpenGate(c: Config) returns (r: seq<World>)
    ensures CleanRun(c, r) && Launched(c, Last(r), 0)
  {
    InitialIsGood(c);
    r := [FirstWorld(c)];
    Extend(c, r, Observe(0));
    r := r + [Do(c, Last(r), Observe(0))];
    Extend(c, r, InitStatus(0, true, Acked));
    r := r + [Do(c, Last(r), InitStatus(0, true, Acked))];
    Extend(c, r, Fetch(0, true));
    r := r + [Do(c, Last(r), Fetch(0, true))];
    Extend(c, r, Gate(0, Acked));
    r := r + [Do(c, Last(r), Gate(0, Acked))];
  }

  lemma {:induction false} LaunchAll(c: Config, k: nat) returns (r: seq<World>)
    requires k <= |c|
    ensures CleanRun(c, r) && Launched(c, Last(r), k)
  {
    if k == 0 {
      r := OpenGate(c);
    } else {
      r := LaunchAll(c, k - 1);
      Extend(c, r, Launch(0));
      r := r + [Do(c, Last(r), Launch(0))];
    }
  }

  lemma LaunchedIsReady(c: Config, w: World, a: nat)
    requires Launched(c, w, |c|) && a < |c|
    ensures Ready(c, w) && Spoiled(c, w, a) && Fine(w.threads[a].pc)
  {
    InitialIsGood(c);
  }

  /** A finished run in which an action was spoiled cannot be complete. */
  lemma SpoiledIsIncomplete(c: Config, r: seq<World>, a: nat)
    requires CleanRun(c, r) && a < |c| && Last(r).store.status.Some? && a < |Last(r).store.status.value.actions|
    requires LastRunning(Last(r).store.status.value.actions[a].phases)
    ensures !StateIs(Last(r).store.status, Complete)
  {
    CleanIsRun(c, r);
    if StateIs(Last(r).store.status, Complete) { CompleteMeansComplete(c, r, |r| - 1); }
  }

  /** Whenever a defer phase collides with the last core phase of its action, some
      fault-free run in which everything succeeds ends without reaching Complete. */
  lemma CollisionSpoilsCompletion(c: Config, a: nat) returns (r: seq<World>)
    requires a < |c| && Collides(c[a])
    ensures CleanRun(c, r) && AllDone(Last(r).threads) && AllSucceeded(c, Last(r))
    ensures !StateIs(Last(r).store.status, Complete)
  {
    var r0 := LaunchAll(c, |c|);
    LaunchedIsReady(c, Last(r0), a);
    var r1 := FinishThread(c, r0, a);
    assert Ready(c, Last(r1));
    r := CanAlwaysFinish(c, r1, 0);
    EveryoneFine(c, Last(r0), Last(r1), Last(r), a);
    SucceededOrBad(c, r, |r| - 1);
    SpoiledIsIncomplete(c, r, a);
  }

  lemma EveryoneFine(c: Config, w0: World, w1: World, w: World, a: nat)
    requires Launched(c, w0, |c|) && OnlyMoved(c, w0, w1, a) && EndedWell(w1.threads[a].pc)
    requires |w.threads| == |c|
    requires forall b | 0 <= b < |c| && Fine(w1.threads[b].pc) :: EndedWell(w.threads[b].pc)
    ensures !AnyBad(w.threads)
  {
    forall b | 0 <= b < |c|
      ensures EndedWell(w.threads[b].pc)
    {
      assert b != a ==> w1.threads[b] == w0.threads[b];
      assert Fine(w1.threads[b].pc);
    }
  }

  ghost predicate GoodEnding(c: Config, r: seq<World>) {
    CleanRun(c, r) && AllDone(Last(r).threads) && AllSucceeded(c, Last(r)) ==>
      StateIs(Last(r).store.status, Complete)
  }

  /** The naming condition is exact: an ActionSet whose fault-free runs all report a
      full success as Complete is one without a colliding defer phase. */
  lemma CompletionNeedsDistinctNames(c: Config)
    requires |c| > 0
    ensures (forall r: seq<World> | |r| > 0 :: GoodEnding(c, r)) <==> NoCollision(c)
  {
    if NoCollision(c) {
      forall r: seq<World> | |r| > 0
        ensures GoodEnding(c, r)
      {
        if CleanRun(c, r) && AllDone(Last(r).threads) { QuiescentState(c, r); }
      }
    } else {
      var a :| 0 <= a < |c| && Collides(c[a]);
      var r := CollisionSpoilsCompletion(c, a);
      assert !GoodEnding(c, r);
    }
  }
}

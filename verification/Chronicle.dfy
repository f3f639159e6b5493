/** Chronicle push and pull: data objects behind a manifest in an object store.

    `Push` writes the data, repoints the manifest, then deletes the previous data, which
    removes every object whose name starts with that of the previous data.  The
    transition system interleaves one pusher, which may crash anywhere and restart, with
    any number of pulls. */
module Chronicle {
  import opened Common
  import opened Paths
  import opened ChronicleNames

  type Objects = map<string, string>

  // ---------------------------------------------------------------- one pusher, any readers

  datatype Writer =
    | Idle(ord: nat)
    | HasOutput(ord: nat, out: string)
    | Wrote(ord: nat, out: string)
    | CommandDone(ord: nat, out: string)
    | Repointed(ord: nat, out: string)
    | Stopped

  /** A push whose manifest write took effect. */
  datatype Pushed = Pushed(ord: nat, out: string)

  /** A pull; `current` is the push the manifest stood for when it was read. */
  datatype Reader =
    | Waiting
    | HasKey(key: string, current: Option<Pushed>)
    | Returned(data: Option<string>, current: Option<Pushed>)

  datatype Sys = Sys(objs: Objects, writer: Writer, readers: seq<Reader>, pushed: seq<Pushed>, puts: seq<nat>)

  datatype Step =
    | Skip
    | Start(output: string)
    | PutData(outcome: Outcome)
    | CommandEnds(ok: bool)
    | PutManifest(outcome: Outcome)
    | DeletePrevious(gone: set<string>)
    | Crash
    | Restart
    | ReadManifest(r: nat, ok: bool)
    | ReadData(r: nat, ok: bool)

  predicate Enabled(at: Place, s: Sys, step: Step) {
    match step
    case Skip => s.writer.Idle?
    case Start(_) => s.writer.Idle?
    case PutData(_) => s.writer.HasOutput?
    case CommandEnds(_) => s.writer.Wrote?
    case PutManifest(_) => s.writer.CommandDone?
    case DeletePrevious(gone) =>
      // A delete that fails half-way leaves some of what it was to remove.
      s.writer.Repointed? && forall k | k in gone :: Doomed(at, s.writer.ord - 1) <= k
    case Crash => true
    case Restart => s.writer.Stopped?
    case ReadManifest(r, _) => r < |s.readers| && s.readers[r].Waiting?
    case ReadData(r, _) => r < |s.readers| && s.readers[r].HasKey?
  }

  function Current(s: Sys): Option<Pushed> {
    if |s.pushed| == 0 then None else Some(s.pushed[|s.pushed| - 1])
  }

  function Do(at: Place, s: Sys, step: Step): Sys
    requires Enabled(at, s, step)
  {
    var w := s.writer;
    match step
    case Skip => s.(writer := Idle(w.ord + 1))
    case Start(output) => s.(writer := HasOutput(w.ord, output))
    case PutData(outcome) =>
      var s1 := if outcome == Refused then s
                else s.(objs := s.objs[DataName(at, w.ord) := w.out], puts := s.puts + [w.ord]);
      s1.(writer := if outcome == Acked then Wrote(w.ord, w.out) else Stopped)
    case CommandEnds(ok) => s.(writer := if ok then CommandDone(w.ord, w.out) else Stopped)
    case PutManifest(outcome) =>
      var s1 := if outcome == Refused then s
                else s.(objs := s.objs[ManifestName(at) := DataKey(at.suffix, w.ord)],
                  pushed := s.pushed + [Pushed(w.ord, w.out)]);
      s1.(writer := if outcome == Acked then Repointed(w.ord, w.out) else Stopped)
    case DeletePrevious(gone) => s.(objs := s.objs - gone, writer := Idle(w.ord + 1))
    case Crash => s.(writer := Stopped)
    case Restart => s.(writer := Idle(0))
    case ReadManifest(r, ok) =>
      // A failed read of the manifest is ignored and leaves an empty key.
      var reader := if ok && ManifestName(at) in s.objs then HasKey(s.objs[ManifestName(at)], Current(s))
                    else HasKey("", None);
      s.(readers := s.readers[r := reader])
    case ReadData(r, ok) =>
      var key := s.readers[r].key;
      var name := ObjectName(at.prefix, key);
      var data := if ok && name in s.objs then Some(s.objs[name]) else None;
      s.(readers := s.readers[r := Returned(data, s.readers[r].current)])
  }

  ghost predicate Linked(at: Place, run: seq<Sys>, i: nat)
    requires 0 < i < |run|
  {
    Next(at, run[i - 1], run[i])
  }

  ghost predicate Next(at: Place, s: Sys, s': Sys) {
    exists step: Step :: Enabled(at, s, step) && s' == Do(at, s, step)
  }

  /** Any interleaving, from any store. */
  ghost predicate Run(at: Place, run: seq<Sys>) {
    && |run| > 0
    && run[0].writer == Stopped && run[0].pushed == [] && run[0].puts == []
    && (forall r | 0 <= r < |run[0].readers| :: run[0].readers[r].Waiting?)
    && forall i | 0 < i < |run| :: Linked(at, run, i)
  }

  // ---------------------------------------------------------------- the manifest never dangles

  predicate NoDangling(at: Place, objs: Objects) {
    ManifestName(at) in objs ==> ObjectName(at.prefix, objs[ManifestName(at)]) in objs
  }

  predicate WriterOk(at: Place, s: Sys) {
    match s.writer
    case Wrote(ord, out) => DataName(at, ord) in s.objs
    case CommandDone(ord, out) => DataName(at, ord) in s.objs
    case Repointed(ord, out) => ManifestName(at) in s.objs && s.objs[ManifestName(at)] == DataKey(at.suffix, ord)
    case _ => true
  }

  lemma DanglingStep(at: Place, s: Sys, step: Step)
    requires NoDangling(at, s.objs) && WriterOk(at, s) && Enabled(at, s, step)
    ensures NoDangling(at, Do(at, s, step).objs) && WriterOk(at, Do(at, s, step))
  {
    hide ObjectName, DeletePrefix, DataKey;
    if step.DeletePrevious? {
      DeleteSparesManifest(at, s.writer.ord - 1);
      DeleteSparesCurrent(at, s.writer.ord);
    } else if step.PutData? {
      ManifestIsShorter(at, s.writer.ord);
    } else if step.PutManifest? {
      ManifestIsShorter(at, s.writer.ord);
    }
  }

  lemma {:induction false} DanglingInv(at: Place, run: seq<Sys>, i: nat)
    requires Run(at, run) && NoDangling(at, run[0].objs) && i < |run|
    ensures NoDangling(at, run[i].objs) && WriterOk(at, run[i])
  {
    hide ObjectName, DeletePrefix, DataKey;
    if i > 0 {
      DanglingInv(at, run, i - 1);
      assert Linked(at, run, i);
      var step: Step :| Enabled(at, run[i - 1], step) && run[i] == Do(at, run[i - 1], step);
      DanglingStep(at, run[i - 1], step);
    }
  }

  /** Across pushes, skipped pushes, failures, crashes between any two accesses and
      restarts from ordinal 0, an existing manifest names an existing object. */
  lemma ManifestNeverDangles(at: Place, run: seq<Sys>, i: nat)
    requires Run(at, run) && NoDangling(at, run[0].objs) && i < |run|
    ensures ManifestName(at) in run[i].objs ==> ObjectName(at.prefix, run[i].objs[ManifestName(at)]) in run[i].objs
  {
    hide ObjectName, DeletePrefix, DataKey;
    DanglingInv(at, run, i);
  }

  // ---------------------------------------------------------------- what a pull returns

  /** One life of the pusher: once started and stopped, it stays stopped. */
  ghost predicate SingleLife(run: seq<Sys>) {
    forall i, j, k | 0 <= i < j < k < |run| ::
      !run[i].writer.Stopped? && run[j].writer.Stopped? ==> run[k].writer.Stopped?
  }

  function PushBound(w: Writer): nat {
    if w.Stopped? then 0 else if w.Repointed? then w.ord + 1 else w.ord
  }

  function PutBound(w: Writer): nat {
    if w.Stopped? then 0 else if w.Idle? || w.HasOutput? then w.ord else w.ord + 1
  }

  ghost predicate Fits(at: Place, objs: Objects, p: Pushed) {
    DataName(at, p.ord) in objs ==> objs[DataName(at, p.ord)] == p.out
  }

  ghost predicate ReaderOk(at: Place, s: Sys, r: Reader) {
    match r
    case Waiting => true
    case HasKey(key, current) =>
      if current.None? then key == "" else key == DataKey(at.suffix, current.value.ord) && current.value in s.pushed
    case Returned(data, current) => data.Some? ==> current.Some? && data.value == current.value.out
  }

  /** The object that a failed read of the manifest leads to is none of the pusher's. */
  ghost predicate RootIsApart(at: Place) {
    ManifestName(at) != RootName(at) && forall ord: nat :: DataName(at, ord) != RootName(at)
  }

  /** The manifest names the last push, and data that exists is what was pushed. */
  ghost predicate DataInv(at: Place, s: Sys) {
    && RootName(at) !in s.objs
    && (ManifestName(at) in s.objs <==> |s.pushed| > 0)
    && (|s.pushed| > 0 ==> s.objs[ManifestName(at)] == DataKey(at.suffix, s.pushed[|s.pushed| - 1].ord))
    && (forall k | 0 <= k < |s.pushed| :: Fits(at, s.objs, s.pushed[k]))
    && (s.writer.Wrote? || s.writer.CommandDone? ==> Fits(at, s.objs, Pushed(s.writer.ord, s.writer.out)))
  }

  /** Ordinals only grow. */
  ghost predicate OrdInv(s: Sys) {
    && (!s.writer.Stopped? ==>
      && (forall k | 0 <= k < |s.pushed| :: s.pushed[k].ord < PushBound(s.writer))
      && (forall k | 0 <= k < |s.puts| :: s.puts[k] < PutBound(s.writer)))
    && (forall j, k | 0 <= j < k < |s.puts| :: s.puts[j] < s.puts[k])
  }

  ghost predicate ReadersInv(at: Place, s: Sys) {
    forall r | 0 <= r < |s.readers| :: ReaderOk(at, s, s.readers[r])
  }

  lemma PutKeepsFit(at: Place, s: Sys, ord: nat, out: string)
    requires forall k | 0 <= k < |s.pushed| :: Fits(at, s.objs, s.pushed[k]) && s.pushed[k].ord < ord
    ensures forall k | 0 <= k < |s.pushed| :: Fits(at, s.objs[DataName(at, ord) := out], s.pushed[k])
  {
    hide ObjectName, DeletePrefix, DataKey;
    forall k | 0 <= k < |s.pushed|
      ensures Fits(at, s.objs[DataName(at, ord) := out], s.pushed[k])
    {
      assert Fits(at, s.objs, s.pushed[k]);
      DataNamesDiffer(at, ord, s.pushed[k].ord);
    }
  }

  lemma PutManifestKeepsData(at: Place, s: Sys, outcome: Outcome)
    requires DataInv(at, s) && s.writer.CommandDone?
    ensures ManifestName(at) != RootName(at) ==> DataInv(at, Do(at, s, PutManifest(outcome)))
  {
    hide ObjectName, DeletePrefix, DataKey;
    var s' := Do(at, s, PutManifest(outcome));
    ManifestIsShorter(at, s.writer.ord);
    forall k | 0 <= k < |s'.pushed|
      ensures Fits(at, s'.objs, s'.pushed[k])
    {
      ManifestIsShorter(at, s'.pushed[k].ord);
      if k < |s.pushed| { assert Fits(at, s.objs, s.pushed[k]); }
    }
  }

  lemma DeleteKeepsData(at: Place, s: Sys, gone: set<string>)
    requires DataInv(at, s) && Enabled(at, s, DeletePrevious(gone))
    ensures DataInv(at, Do(at, s, DeletePrevious(gone)))
  {
    hide ObjectName, DeletePrefix, DataKey;
    var s' := Do(at, s, DeletePrevious(gone));
    DeleteSparesManifest(at, s.writer.ord - 1);
    forall k | 0 <= k < |s'.pushed|
      ensures Fits(at, s'.objs, s'.pushed[k])
    {
      assert Fits(at, s.objs, s.pushed[k]);
    }
  }

  lemma PutDataKeepsData(at: Place, s: Sys, outcome: Outcome)
    requires DataInv(at, s) && OrdInv(s) && s.writer.HasOutput?
    ensures DataName(at, s.writer.ord) != RootName(at) ==> DataInv(at, Do(at, s, PutData(outcome)))
  {
    hide ObjectName, DeletePrefix, DataKey;
    ManifestIsShorter(at, s.writer.ord);
    PutKeepsFit(at, s, s.writer.ord, s.writer.out);
  }

  lemma DataStep(at: Place, s: Sys, step: Step)
    requires DataInv(at, s) && OrdInv(s) && Enabled(at, s, step)
    ensures RootIsApart(at) ==> DataInv(at, Do(at, s, step))
  {
    hide ObjectName, DeletePrefix, DataKey;
    match step
    case PutData(outcome) => PutDataKeepsData(at, s, outcome);
    case PutManifest(outcome) => PutManifestKeepsData(at, s, outcome);
    case DeletePrevious(gone) => DeleteKeepsData(at, s, gone);
    case _ =>
  }

  lemma OrdStep(at: Place, s: Sys, step: Step)
    requires OrdInv(s) && Enabled(at, s, step) && (step == Restart ==> s.pushed == [] && s.puts == [])
    ensures OrdInv(Do(at, s, step))
  {
    hide ObjectName, DeletePrefix, DataKey;
  }

  lemma ReadersStep(at: Place, s: Sys, step: Step)
    requires DataInv(at, s) && ReadersInv(at, s) && Enabled(at, s, step)
    ensures ReadersInv(at, Do(at, s, step))
  {
    hide ObjectName, DeletePrefix, DataKey;
    var s' := Do(at, s, step);
    forall r | 0 <= r < |s'.readers|
      ensures ReaderOk(at, s', s'.readers[r])
    {
      assert ReaderOk(at, s, s.readers[r]);
      if step.ReadData? && step.r == r && s.readers[r].current.Some? {
        var k :| 0 <= k < |s.pushed| && s.pushed[k] == s.readers[r].current.value;
        assert Fits(at, s.objs, s.pushed[k]);
      }
    }
  }

  lemma {:induction false} BeforeFirstStart(at: Place, run: seq<Sys>, i: nat)
    requires Run(at, run) && i < |run| && forall j | 0 <= j <= i :: run[j].writer.Stopped?
    ensures run[i].pushed == [] && run[i].puts == [] && run[i].objs == run[0].objs
  {
    hide ObjectName, DeletePrefix, DataKey;
    if i > 0 {
      BeforeFirstStart(at, run, i - 1);
      assert Linked(at, run, i);
    }
  }

  lemma {:induction false} OrdRunInv(at: Place, run: seq<Sys>, i: nat)
    requires Run(at, run) && SingleLife(run) && i < |run|
    ensures OrdInv(run[i])
  {
    hide ObjectName, DeletePrefix, DataKey;
    if i > 0 {
      OrdRunInv(at, run, i - 1);
      assert Linked(at, run, i);
      var step: Step :| Enabled(at, run[i - 1], step) && run[i] == Do(at, run[i - 1], step);
      if step == Restart {
        assert !run[i].writer.Stopped?;
        BeforeFirstStart(at, run, i - 1);
      }
      OrdStep(at, run[i - 1], step);
    }
  }

  lemma {:induction false} ContentRunInv(at: Place, run: seq<Sys>, i: nat)
    requires RootIsApart(at) && Run(at, run) && SingleLife(run) && i < |run|
    requires ManifestName(at) !in run[0].objs && RootName(at) !in run[0].objs
    ensures DataInv(at, run[i]) && ReadersInv(at, run[i])
  {
    hide ObjectName, DeletePrefix, DataKey;
    if i > 0 {
      ContentRunInv(at, run, i - 1);
      assert Linked(at, run, i);
      var step: Step :| Enabled(at, run[i - 1], step) && run[i] == Do(at, run[i - 1], step);
      OrdRunInv(at, run, i - 1);
      DataStep(at, run[i - 1], step);
      ReadersStep(at, run[i - 1], step);
    }
  }

  /** A pull that interleaves with one life of the pusher, started without a manifest,
      returns nothing or exactly the output of the push that was current when the
      manifest was read. */
  lemma PullReturnsCurrentPush(at: Place, run: seq<Sys>, i: nat, r: nat)
    requires RootIsApart(at) && Run(at, run) && SingleLife(run) && i < |run| && r < |run[i].readers|
    requires ManifestName(at) !in run[0].objs && RootName(at) !in run[0].objs
    requires run[i].readers[r].Returned? && run[i].readers[r].data.Some?
    ensures run[i].readers[r].current.Some?
    ensures run[i].readers[r].data.value == run[i].readers[r].current.value.out
  {
    hide ObjectName, DeletePrefix, DataKey;
    ContentRunInv(at, run, i);
    assert ReaderOk(at, run[i], run[i].readers[r]);
  }

  /** In one life no data key is written twice. */
  lemma DataKeysAreWrittenOnce(at: Place, run: seq<Sys>, i: nat, j: nat, k: nat)
    requires Run(at, run) && SingleLife(run) && i < |run|
    requires j < k < |run[i].puts|
    ensures DataName(at, run[i].puts[j]) != DataName(at, run[i].puts[k])
  {
    hide ObjectName, DeletePrefix, DataKey;
    OrdRunInv(at, run, i);
    DataNamesDiffer(at, run[i].puts[j], run[i].puts[k]);
  }

  // ---------------------------------------------------------------- how much is kept

  /** The delete removes all it should. */
  predicate DeletesAll(at: Place, s: Sys, step: Step) {
    step.DeletePrevious? && s.writer.Repointed? ==>
      forall k | k in s.objs && Doomed(at, s.writer.ord - 1) <= k :: k in step.gone
  }

  /** No push is skipped and every delete succeeds. */
  ghost predicate Tidy(at: Place, run: seq<Sys>) {
    forall i | 0 < i < |run| :: TidyLinked(at, run, i)
  }

  ghost predicate TidyLinked(at: Place, run: seq<Sys>, i: nat)
    requires 0 < i < |run|
  {
    TidyNext(at, run[i - 1], run[i])
  }

  ghost predicate TidyNext(at: Place, s: Sys, s': Sys) {
    exists step: Step :: Enabled(at, s, step) && s' == Do(at, s, step) && step != Skip && DeletesAll(at, s, step)
  }

  ghost predicate Within(at: Place, objs: Objects, lo: int, hi: int) {
    forall ord: int :: DataName(at, ord) in objs ==> lo <= ord <= hi
  }

  /** Only the data of ordinals `top - 1` and `top` may exist. */
  ghost predicate Window(at: Place, objs: Objects, top: int) {
    Within(at, objs, top - 1, top)
  }

  ghost predicate WindowInv(at: Place, s: Sys) {
    match s.writer
    case Idle(ord) => Within(at, s.objs, ord - 1, ord - 1)
    case HasOutput(ord, _) => Within(at, s.objs, ord - 1, ord - 1)
    case Wrote(ord, _) => Within(at, s.objs, ord - 1, ord)
    case CommandDone(ord, _) => Within(at, s.objs, ord - 1, ord)
    case Repointed(ord, _) => Within(at, s.objs, ord - 1, ord)
    case Stopped => exists o: int :: Window(at, s.objs, o)
  }

  lemma WindowStep(at: Place, s: Sys, step: Step)
    requires !Climbs(at) && WindowInv(at, s) && Enabled(at, s, step) && step != Skip && DeletesAll(at, s, step)
    requires step == Restart ==> Within(at, s.objs, 0, -1)
    ensures WindowInv(at, Do(at, s, step))
  {
    hide ObjectName, DeletePrefix, DataKey;
    var s' := Do(at, s, step);
    if step.PutData? {
      var k := s.writer.ord;
      forall ord: int | DataName(at, ord) in s'.objs
        ensures k - 1 <= ord <= k
      {
        DataNamesDiffer(at, ord, k);
      }
      assert Window(at, s'.objs, k);
    } else if step.PutManifest? {
      var k := s.writer.ord;
      forall ord: int | DataName(at, ord) in s'.objs
        ensures k - 1 <= ord <= k
      {
        ManifestIsShorter(at, ord);
      }
      assert Window(at, s'.objs, k);
    } else if step.DeletePrevious? {
      var k: int := s.writer.ord;
      forall ord: int | DataName(at, ord) in s'.objs
        ensures ord == k
      {
        if ord == k - 1 { DeleteHitsExactlyWhen(at, ord); }
      }
    } else if step.Crash? || step.CommandEnds? {
      var k := if s.writer.Stopped? then 0 else s.writer.ord;
      if !s.writer.Stopped? { assert Window(at, s'.objs, k); }
    }
  }

  lemma {:induction false} WindowRunInv(at: Place, run: seq<Sys>, i: nat)
    requires !Climbs(at) && Run(at, run) && SingleLife(run) && Tidy(at, run) && i < |run|
    requires Within(at, run[0].objs, 0, -1)
    ensures WindowInv(at, run[i])
  {
    hide ObjectName, DeletePrefix, DataKey;
    if i == 0 {
      assert Window(at, run[0].objs, 0);
    } else {
      WindowRunInv(at, run, i - 1);
      assert TidyLinked(at, run, i);
      var step: Step :| Enabled(at, run[i - 1], step) && run[i] == Do(at, run[i - 1], step) && step != Skip &&
        DeletesAll(at, run[i - 1], step);
      if step == Restart {
        assert !run[i].writer.Stopped?;
        BeforeFirstStart(at, run, i - 1);
      }
      WindowStep(at, run[i - 1], step);
    }
  }

  /** If no push is skipped and deletes succeed, no three data objects exist at once. */
  lemma AtMostTwoDataObjects(at: Place, run: seq<Sys>, i: nat, x: int, y: int, z: int)
    requires !Climbs(at) && Run(at, run) && SingleLife(run) && Tidy(at, run) && i < |run|
    requires Within(at, run[0].objs, 0, -1)
    requires x < y < z
    ensures !(DataName(at, x) in run[i].objs && DataName(at, y) in run[i].objs && DataName(at, z) in run[i].objs)
  {
    hide ObjectName, DeletePrefix, DataKey;
    WindowRunInv(at, run, i);
    if run[i].writer.Stopped? {
      var o: int :| Window(at, run[i].objs, o);
    }
  }
}

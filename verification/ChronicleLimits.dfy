/** When chronicle keeps what one would expect of it, exactly: what pulls return, how many
    data objects exist, and which other objects in the bucket survive. */
module ChronicleLimits {
  import opened Common
  import opened Paths
  import opened ChronicleNames
  import opened Chronicle
  import opened ChroniclePush

  // ---------------------------------------------------------------- lives of the pusher

  ghost predicate LifeFrom(at: Place, objs: Objects, run: seq<Sys>) {
    Run(at, run) && SingleLife(run) && run[0].objs == objs
  }

  ghost predicate Alive(run: seq<Sys>) {
    forall i | 0 < i < |run| :: !run[i].writer.Stopped?
  }

  /** A life that skips the first `n` rounds. */
  lemma {:induction false} LifeOfSkips(at: Place, objs: Objects, n: nat) returns (run: seq<Sys>)
    ensures LifeFrom(at, objs, run) && Alive(run) && Path(at, run)
    ensures Last(run) == Sys(objs, Idle(n), [Waiting], [], [])
  {
    hide ObjectName, DeletePrefix, DataKey;
    if n == 0 {
      run := Grow(at, [Sys(objs, Stopped, [Waiting], [], [])], Restart);
    } else {
      run := LifeOfSkips(at, objs, n - 1);
      run := Grow(at, run, Skip);
    }
  }

  function Answer(output: string, walked: seq<string>): Answers {
    Answers(Present, true, output, Acked, true, Acked, walked)
  }

  /** A life that pushes once, at ordinal `n`. */
  lemma LifeWithPush(at: Place, objs: Objects, n: nat, output: string, walked: seq<string>) returns (run: seq<Sys>)
    ensures LifeFrom(at, objs, run) && Alive(run) && Path(at, run)
    ensures Last(run).objs == PushEffect(objs, at, n, Answer(output, walked))
    ensures Last(run).readers == [Waiting] && Last(run).pushed == [Pushed(n, output)]
  {
    hide ObjectName, DeletePrefix, DataKey, PushEffect;
    var skips := LifeOfSkips(at, objs, n);
    run := RoundIsAPath(at, skips, Answer(output, walked));
    forall i | 0 < i < |run|
      ensures !run[i].writer.Stopped?
    {
      if i < |skips| { assert run[i] == skips[i]; }
    }
    assert run[0] == skips[0];
  }

  // ---------------------------------------------------------------- when a pull misleads

  /** A pull returned something that no push wrote, or something of an older push. */
  predicate Misled(r: Reader) {
    r.Returned? && r.data.Some? && !(r.current.Some? && r.data.value == r.current.value.out)
  }

  ghost predicate Trustworthy(run: seq<Sys>) {
    forall i, r | 0 <= i < |run| && 0 <= r < |run[i].readers| :: !Misled(run[i].readers[r])
  }

  lemma ReadersDoNotStop(run: seq<Sys>, s: Sys)
    requires |run| > 0 && SingleLife(run) && s.writer == Last(run).writer
    ensures SingleLife(run + [s])
  {
    var run' := run + [s];
    forall i, j, k | 0 <= i < j < k < |run'| && !run'[i].writer.Stopped? && run'[j].writer.Stopped?
      ensures run'[k].writer.Stopped?
    {
      if k == |run| && j < |run| - 1 { assert run[|run| - 1].writer.Stopped?; }
    }
  }

  /** A pull whose read of the manifest fails returns the object under the empty path. */
  lemma RootMisleads(at: Place, objs: Objects, run: seq<Sys>) returns (run': seq<Sys>)
    requires LifeFrom(at, objs, run) && Path(at, run) && Last(run).readers == [Waiting] &&
      RootName(at) in Last(run).objs
    ensures LifeFrom(at, objs, run') && !Trustworthy(run')
  {
    hide ObjectName, DeletePrefix, DataKey;
    var run1 := Grow(at, run, ReadManifest(0, false));
    ReadersDoNotStop(run, Last(run1));
    run' := Grow(at, run1, ReadData(0, true));
    ReadersDoNotStop(run1, Last(run'));
    assert Misled(run'[|run'| - 1].readers[0]);
  }

  /** If the empty path names the manifest or data, the object comes to exist. */
  lemma RootAppears(at: Place, objs: Objects) returns (run: seq<Sys>)
    requires !RootIsApart(at)
    ensures LifeFrom(at, objs, run) && Path(at, run) && Last(run).readers == [Waiting] && RootName(at) in Last(run).objs
  {
    hide ObjectName, DeletePrefix, DataKey;
    var n: nat := 0;
    if ManifestName(at) != RootName(at) {
      n :| DataName(at, n) == RootName(at);
    }
    run := LifeWithPush(at, objs, n, "dump", []);
  }

  /** Pulls are right in every single life of the pusher, started without a manifest,
      exactly when the empty path names no object, neither now nor later. */
  lemma PullsAreRightExactlyWhen(at: Place, objs: Objects)
    requires ManifestName(at) !in objs
    ensures (forall run: seq<Sys> | LifeFrom(at, objs, run) :: Trustworthy(run)) <==>
      RootIsApart(at) && RootName(at) !in objs
  {
    hide ObjectName, DeletePrefix, DataKey;
    if RootIsApart(at) && RootName(at) !in objs {
      forall run: seq<Sys> | LifeFrom(at, objs, run)
        ensures Trustworthy(run)
      {
        LifeIsTrustworthy(at, run);
      }
    } else {
      var run := [Sys(objs, Stopped, [Waiting], [], [])];
      if RootName(at) !in objs {
        run := RootAppears(at, objs);
      }
      var run' := RootMisleads(at, objs, run);
      assert LifeFrom(at, objs, run');
    }
  }

  lemma LifeIsTrustworthy(at: Place, run: seq<Sys>)
    requires RootIsApart(at) && Run(at, run) && SingleLife(run)
    requires ManifestName(at) !in run[0].objs && RootName(at) !in run[0].objs
    ensures Trustworthy(run)
  {
    hide ObjectName, DeletePrefix, DataKey;
    forall i, r | 0 <= i < |run| && 0 <= r < |run[i].readers|
      ensures !Misled(run[i].readers[r])
    {
      ContentRunInv(at, run, i);
      assert ReaderOk(at, run[i], run[i].readers[r]);
    }
  }

  /** Plain paths are safe under every prefix. */
  lemma PlainPathsPullRight(at: Place, run: seq<Sys>)
    requires Plain(at.suffix) && Run(at, run) && SingleLife(run)
    requires ManifestName(at) !in run[0].objs && RootName(at) !in run[0].objs
    ensures Trustworthy(run)
  {
    hide ObjectName, DeletePrefix, DataKey;
    forall ord: nat
      ensures DataName(at, ord) != RootName(at)
    {
      PlainPathsAreApart(at, ord);
    }
    PlainPathsAreApart(at, 0);
    LifeIsTrustworthy(at, run);
  }

  /** The path "." is not empty, and yet pulls can return the manifest as data. */
  lemma DotMisleads(prefix: string) returns (run: seq<Sys>)
    requires prefix != ""
    ensures LifeFrom(Place(prefix, "."), map[], run) && !Trustworthy(run)
  {
    hide ObjectName, DeletePrefix, DataKey;
    DotNamesTheRoot(prefix);
    run := RootAppears(Place(prefix, "."), map[]);
    run := RootMisleads(Place(prefix, "."), map[], run);
  }

  lemma FirstPush(objs: Objects, at: Place, output: string)
    ensures Leads(PushEffect(objs, at, 0, Answer(output, [])), at, 0, output)
  {
    hide ObjectName, DeletePrefix, DataKey;
    ManifestIsShorter(at, 0);
  }

  /** A second life starts at ordinal 0 again and overwrites what the manifest names, so a
      single life is needed: at every path a restart can make a pull return output that was
      never published. */
  lemma RestartMisleads(at: Place, objs: Objects) returns (run: seq<Sys>)
    ensures Run(at, run) && run[0].objs == objs && !Trustworthy(run)
  {
    hide ObjectName, DeletePrefix, DataKey, PushEffect;
    run := LifeWithPush(at, objs, 0, "first", []);
    FirstPush(objs, at, "first");
    run := Grow(at, run, Crash);
    run := Grow(at, run, Restart);
    run := WriteData(at, run, Answer("second", []));
    ManifestIsShorter(at, 0);
    run := Grow(at, run, ReadManifest(0, true));
    run := Grow(at, run, ReadData(0, true));
    assert Misled(run[|run| - 1].readers[0]);
  }

  // ---------------------------------------------------------------- how many data objects exist

  ghost predicate TidyLife(at: Place, run: seq<Sys>) {
    Run(at, run) && SingleLife(run) && Tidy(at, run) && Within(at, run[0].objs, 0, -1)
  }

  ghost predicate AtMostTwo(at: Place, objs: Objects) {
    forall x, y, z: int | x < y < z :: !(Exists(at, objs, x) && Exists(at, objs, y) && Exists(at, objs, z))
  }

  ghost predicate Exists(at: Place, objs: Objects, ord: int) {
    DataName(at, ord) in objs
  }

  /** Only what the pusher wrote. */
  ghost predicate OnlyOwn(at: Place, objs: Objects) {
    forall k | k in objs :: k == ManifestName(at) || exists ord: int :: k == DataName(at, ord)
  }

  lemma NothingDoomed(at: Place, objs: Objects, ord: int, k: string)
    requires Climbs(at) && OnlyOwn(at, objs) && k in objs
    ensures !(Doomed(at, ord) <= k)
  {
    hide ObjectName, DeletePrefix, DataKey, Climbs;
    if k == ManifestName(at) {
      DeleteSparesManifest(at, ord);
    } else {
      var j: int :| k == DataName(at, j);
      DeleteMisses(at, ord, j);
    }
  }

  ghost predicate TidyPath(at: Place, run: seq<Sys>) {
    |run| > 0 && Path(at, run) && Tidy(at, run)
  }

  lemma GrowTidy(at: Place, run: seq<Sys>, step: Step) returns (run': seq<Sys>)
    requires TidyPath(at, run) && Enabled(at, Last(run), step) && step != Skip && DeletesAll(at, Last(run), step)
    ensures run' == run + [Do(at, Last(run), step)] && TidyPath(at, run')
  {
    hide ObjectName, DeletePrefix, DataKey, Doomed;
    run' := Grow(at, run, step);
    forall i | 0 < i < |run'|
      ensures TidyLinked(at, run', i)
    {
      if i < |run| {
        assert TidyLinked(at, run, i);
        assert run'[i] == run[i] && run'[i - 1] == run[i - 1];
      } else {
        assert run'[i - 1] == Last(run);
        assert TidyNext(at, run'[i - 1], run'[i]);
      }
    }
  }

  /** A full round that deletes nothing, because nothing is to delete. */
  lemma TidyRound(at: Place, run: seq<Sys>) returns (run': seq<Sys>)
    requires Climbs(at) && TidyPath(at, run) && Alive(run) && Last(run).writer.Idle? && OnlyOwn(at, Last(run).objs)
    ensures TidyPath(at, run') && Alive(run') && |run'| > |run| && run'[0] == run[0]
    ensures Last(run').writer == Idle(Last(run).writer.ord + 1) && OnlyOwn(at, Last(run').objs)
    ensures Last(run').objs.Keys == Last(run).objs.Keys + {DataName(at, Last(run).writer.ord), ManifestName(at)}
  {
    hide ObjectName, DeletePrefix, DataKey, Doomed, Climbs;
    var ord: int := Last(run).writer.ord;
    run' := GrowTidy(at, run, Start("dump"));
    run' := GrowTidy(at, run', PutData(Acked));
    run' := GrowTidy(at, run', CommandEnds(true));
    run' := GrowTidy(at, run', PutManifest(Acked));
    assert Last(run').objs == Last(run).objs[DataName(at, ord) := "dump"][ManifestName(at) := DataKey(at.suffix, ord)];
    forall k | k in Last(run').objs
      ensures !(Doomed(at, ord - 1) <= k)
    {
      NothingDoomed(at, Last(run').objs, ord - 1, k);
    }
    run' := GrowTidy(at, run', DeletePrevious({}));
  }

  lemma {:induction false} DataPilesUp(at: Place, n: nat) returns (run: seq<Sys>)
    requires Climbs(at)
    ensures TidyPath(at, run) && Alive(run) && run[0] == Sys(map[], Stopped, [], [], [])
    ensures Last(run).writer == Idle(n) && OnlyOwn(at, Last(run).objs)
    ensures forall ord: nat | ord < n :: Exists(at, Last(run).objs, ord)
  {
    hide ObjectName, DeletePrefix, DataKey, Doomed, Climbs;
    if n == 0 {
      run := GrowTidy(at, [Sys(map[], Stopped, [], [], [])], Restart);
    } else {
      var before := DataPilesUp(at, n - 1);
      run := TidyRound(at, before);
      forall ord: nat | ord < n
        ensures Exists(at, Last(run).objs, ord)
      {
        if ord < n - 1 { assert Exists(at, Last(before).objs, ord); }
      }
    }
  }

  /** If no push is skipped and every delete succeeds, there are never more than two data
      objects, exactly when the path stays in the bucket; otherwise the deletes miss. */
  lemma AtMostTwoExactlyWhen(at: Place)
    ensures (forall run: seq<Sys>, i: nat | TidyLife(at, run) && i < |run| :: AtMostTwo(at, run[i].objs)) <==>
      !Climbs(at)
  {
    hide ObjectName, DeletePrefix, DataKey, Doomed, Climbs;
    if Climbs(at) {
      var run := DataPilesUp(at, 3);
      assert TidyLife(at, run);
      var objs := run[|run| - 1].objs;
      assert Exists(at, objs, 0) && Exists(at, objs, 1) && Exists(at, objs, 2);
      assert !AtMostTwo(at, objs);
    } else {
      forall run: seq<Sys>, i: nat | TidyLife(at, run) && i < |run|
        ensures AtMostTwo(at, run[i].objs)
      {
        forall x, y, z: int | x < y < z
          ensures !(Exists(at, run[i].objs, x) && Exists(at, run[i].objs, y) && Exists(at, run[i].objs, z))
        {
          AtMostTwoDataObjects(at, run, i, x, y, z);
        }
      }
    }
  }

  // ---------------------------------------------------------------- other objects in the bucket

  /** The delete of some round can reach the object. */
  predicate Threatened(at: Place, k: string) {
    DoomedStem(at) + "--1" <= k || exists d: nat | d < 10 :: DoomedStem(at) + ['-', Digit(d)] <= k
  }

  ghost predicate IsData(at: Place, k: string) {
    exists ord: nat :: k == DataName(at, ord)
  }

  ghost predicate IsForeign(at: Place, k: string) {
    k != ManifestName(at) && !IsData(at, k) && !Threatened(at, k)
  }

  lemma {:induction false} DecimalStarts(n: nat) returns (d: nat)
    ensures d < 10 && [Digit(d)] <= Decimal(n)
  {
    if n < 10 { d := n; } else { d := DecimalStarts(n / 10); }
  }

  lemma PrefixOfPrefix(a: string, b: string, c: string, k: string)
    requires b <= c && a + c <= k
    ensures a + b <= k
  {
    assert a + c == a + b + c[|b|..];
  }

  lemma DoomedIsThreatened(at: Place, ord: nat, k: string)
    requires Doomed(at, ord - 1) <= k
    ensures Threatened(at, k)
  {
    hide DoomedStem, DeletePrefix, DataKey;
    DoomedForm(at, ord - 1);
    if ord == 0 {
      assert Tag(-1) == "--1";
    } else {
      var d := DecimalStarts(ord - 1);
      assert Tag(ord - 1) == "-" + Decimal(ord - 1);
      PrefixOfPrefix(DoomedStem(at), ['-', Digit(d)], Tag(ord - 1), k);
    }
  }

  lemma ThreatenedIsDoomed(at: Place, k: string) returns (ord: nat)
    requires Threatened(at, k)
    ensures Doomed(at, ord - 1) <= k
  {
    hide DoomedStem, DeletePrefix, DataKey;
    if DoomedStem(at) + "--1" <= k {
      ord := 0;
      assert Tag(-1) == "--1";
    } else {
      var d: nat :| d < 10 && DoomedStem(at) + ['-', Digit(d)] <= k;
      ord := d + 1;
      assert Tag(d) == ['-', Digit(d)];
    }
    DoomedForm(at, ord - 1);
  }

  /** An object that exists at the start keeps its value throughout. */
  ghost predicate Keeps(run: seq<Sys>, k: string) {
    |run| > 0 && k in run[0].objs ==> forall i | 0 <= i < |run| :: Unchanged(run, i, k)
  }

  ghost predicate Unchanged(run: seq<Sys>, i: nat, k: string)
    requires i < |run|
  {
    k in run[0].objs && k in run[i].objs && run[i].objs[k] == run[0].objs[k]
  }

  lemma ForeignStep(at: Place, s: Sys, step: Step, k: string)
    requires IsForeign(at, k) && Enabled(at, s, step) && k in s.objs
    ensures k in Do(at, s, step).objs && Do(at, s, step).objs[k] == s.objs[k]
  {
    hide ObjectName, DeletePrefix, DataKey, Doomed, Threatened;
    if step.DeletePrevious? && k in step.gone {
      DoomedIsThreatened(at, s.writer.ord, k);
    }
  }

  lemma {:induction false} ForeignIsKept(at: Place, run: seq<Sys>, i: nat, k: string)
    requires IsForeign(at, k) && Run(at, run) && k in run[0].objs && i < |run|
    ensures Unchanged(run, i, k)
  {
    hide ObjectName, DeletePrefix, DataKey, IsForeign;
    if i > 0 {
      ForeignIsKept(at, run, i - 1, k);
      assert Linked(at, run, i);
      var step: Step :| Enabled(at, run[i - 1], step) && run[i] == Do(at, run[i - 1], step);
      ForeignStep(at, run[i - 1], step, k);
    }
  }

  /** What is not foreign is lost or overwritten in some run. */
  lemma OthersAreLost(at: Place, k: string) returns (run: seq<Sys>)
    requires !IsForeign(at, k)
    ensures Run(at, run) && !Keeps(run, k)
  {
    hide ObjectName, DeletePrefix, DataKey, Doomed, Threatened;
    var n: nat, walked := 0, [];
    if k == ManifestName(at) {
      DeleteSparesManifest(at, -1);
      DataKeyIsLong(at.suffix, 0);
    } else if Threatened(at, k) {
      n := ThreatenedIsDoomed(at, k);
      walked := [k];
    } else {
      n :| k == DataName(at, n);
      ManifestIsShorter(at, n);
    }
    run := LifeWithPush(at, map[k := ""], n, "dump", walked);
    assert !Unchanged(run, |run| - 1, k);
  }

  lemma DataKeyIsLong(suffix: string, ord: int)
    ensures DataKey(suffix, ord) != ""
  {
  }

  /** Which other objects in the bucket survive every push, skip, failure and restart:
      exactly those that are not the manifest or data and whose names do not start with the
      stem, a dash and a digit. */
  lemma ObjectsSurviveExactlyWhen(at: Place, k: string)
    ensures (forall run: seq<Sys> | Run(at, run) :: Keeps(run, k)) <==> IsForeign(at, k)
  {
    hide ObjectName, DeletePrefix, DataKey, IsForeign;
    if IsForeign(at, k) {
      forall run: seq<Sys> | Run(at, run)
        ensures Keeps(run, k)
      {
        if k in run[0].objs {
          forall i | 0 <= i < |run|
            ensures Unchanged(run, i, k)
          {
            ForeignIsKept(at, run, i, k);
          }
        }
      }
    } else {
      var run := OthersAreLost(at, k);
      assert Run(at, run) && !Keeps(run, k);
    }
  }

  /** An artifact at `db-10` is not safe from the pusher of an artifact at `db`. */
  lemma NeighbourIsLost(at: Place, ord: nat) returns (run: seq<Sys>)
    ensures Run(at, run) && !Keeps(run, ManifestName(Place(at.prefix, DataKey(at.suffix, ord))))
  {
    hide ObjectName, DeletePrefix, DataKey, Threatened;
    var k := ManifestName(Place(at.prefix, DataKey(at.suffix, ord)));
    assert k == DataName(at, ord);
    run := OthersAreLost(at, k);
  }
}

/** The code of chronicle's push and pull on a bucket, and how it fits the transition
    system. */
module ChroniclePush {
  import opened Common
  import opened Paths
  import opened ChronicleNames
  import opened Chronicle

  /** How the outside world answers one round of the push loop; `walked` are the objects
      that the delete reached before it ended. */
  datatype Profile = Present | Missing | Unreadable
  datatype Answers = Answers(
    profile: Profile,
    started: bool,
    output: string,
    put: Outcome,
    commandOk: bool,
    repoint: Outcome,
    walked: seq<string>)

  function PushOk(e: Answers): bool {
    e.profile == Missing || (e.profile == Present && e.started && e.put == Acked && e.commandOk && e.repoint == Acked)
  }

  function Hit(prefix: string, names: seq<string>): set<string> {
    set k | k in names && prefix <= k
  }

  /** The store after one round. */
  function PushEffect(objs: Objects, at: Place, ord: nat, e: Answers): Objects {
    if e.profile != Present || !e.started || e.put == Refused then objs
    else
      var objs1 := objs[DataName(at, ord) := e.output];
      if e.put == Lost || !e.commandOk || e.repoint == Refused then objs1
      else
        var objs2 := objs1[ManifestName(at) := DataKey(at.suffix, ord)];
        if e.repoint == Lost then objs2 else objs2 - Hit(Doomed(at, ord - 1), e.walked)
  }

  class Bucket {
    var objects: Objects

    constructor ()
      ensures objects == map[]
    {
      objects := map[];
    }

    method Write(name: string, value: string, outcome: Outcome) returns (ok: bool)
      modifies this
      ensures objects == if outcome == Refused then old(objects) else old(objects)[name := value]
      ensures ok <==> outcome == Acked
    {
      if outcome != Refused {
        objects := objects[name := value];
      }
      ok := outcome == Acked;
    }

    method Read(name: string, reachable: bool) returns (value: Option<string>)
      ensures value == if reachable && name in objects then Some(objects[name]) else None
    {
      if reachable && name in objects {
        value := Some(objects[name]);
      } else {
        value := None;
      }
    }

    /** `deleteWithPrefix`: removes the objects with the prefix one after the other. */
    method DeleteAllWithPrefix(prefix: string, walked: seq<string>)
      modifies this
      ensures objects == old(objects) - Hit(prefix, walked)
    {
      for i := 0 to |walked|
        invariant objects == old(objects) - Hit(prefix, walked[..i])
      {
        assert walked[..i + 1] == walked[..i] + [walked[i]];
        if prefix <= walked[i] {
          objects := objects - {walked[i]};
          assert Hit(prefix, walked[..i + 1]) == Hit(prefix, walked[..i]) + {walked[i]};
        } else {
          assert Hit(prefix, walked[..i + 1]) == Hit(prefix, walked[..i]);
        }
      }
      assert walked[..|walked|] == walked;
    }
  }

  /** `push` and `pushWithEnv`. */
  method PushOnce(b: Bucket, at: Place, ord: nat, e: Answers) returns (ok: bool)
    modifies b
    ensures ok == PushOk(e)
    ensures !ok <==> (e.profile == Unreadable || (e.profile == Present &&
                      (!e.started || e.put != Acked || !e.commandOk || e.repoint != Acked)))
    ensures b.objects == PushEffect(old(b.objects), at, ord, e)
    ensures e.profile != Present || !e.started || e.put == Refused ==> b.objects == old(b.objects)
    ensures e.profile == Present && e.started && e.put != Refused ==>
      DataName(at, ord) in b.objects && b.objects[DataName(at, ord)] == e.output
    ensures e.put != Acked || !e.commandOk || e.repoint == Refused ==>
      b.objects - {DataName(at, ord)} == old(b.objects) - {DataName(at, ord)}
    ensures e.profile == Present && e.started && e.put == Acked && e.commandOk && e.repoint != Refused ==>
      Leads(b.objects, at, ord, e.output)
  {
    hide ObjectName, DeletePrefix, DataKey;
    if e.profile != Present {
      return e.profile == Missing;
    }
    if !e.started {
      return false;
    }
    var cur := DataKey(at.suffix, ord);
    ok := b.Write(ObjectName(at.prefix, cur), e.output, e.put);
    if !ok || !e.commandOk {
      return false;
    }
    ok := b.Write(ObjectName(at.prefix, at.suffix), cur, e.repoint);
    ManifestIsShorter(at, ord);
    if !ok {
      return false;
    }
    b.DeleteAllWithPrefix(DeletePrefix(at.prefix, DataKey(at.suffix, ord - 1)), e.walked);
    DeleteSparesManifest(at, ord - 1);
    DeleteSparesCurrent(at, ord);
  }

  /** One round leaves every object alone that is not its own and that the delete does not
      reach, and takes away those that it reaches. */
  lemma RoundKeepsExactly(objs: Objects, at: Place, ord: nat, e: Answers, k: string)
    requires k in objs && k != ManifestName(at) && k != DataName(at, ord)
    ensures k in PushEffect(objs, at, ord, e) <==>
      !(e.profile == Present && PushOk(e) && k in e.walked && Doomed(at, ord - 1) <= k)
    ensures k in PushEffect(objs, at, ord, e) ==> PushEffect(objs, at, ord, e)[k] == objs[k]
  {
    hide ObjectName, DeletePrefix, DataKey;
  }

  /** The round that published the data a reader should see, if any. */
  function LastPublished(rounds: seq<Answers>): int {
    if rounds == [] then -1
    else
      var e := rounds[|rounds| - 1];
      if e.profile == Present && PushOk(e) then |rounds| - 1 else LastPublished(rounds[..|rounds| - 1])
  }

  lemma {:induction false} LastPublishedRange(rounds: seq<Answers>)
    ensures -1 <= LastPublished(rounds) < |rounds|
    ensures LastPublished(rounds) >= 0 ==>
      rounds[LastPublished(rounds)].profile == Present && PushOk(rounds[LastPublished(rounds)])
  {
    if rounds != [] { LastPublishedRange(rounds[..|rounds| - 1]); }
  }

  /** Round `i` is the first one that fails: the profile cannot be read, or it is there and
      the start, the data, the command or the manifest fails.  A missing profile is no
      failure. */
  predicate FirstFailure(rounds: seq<Answers>, i: nat) {
    && i < |rounds| && Fails(rounds[i])
    && forall k | 0 <= k < i :: !Fails(rounds[k])
  }

  predicate Fails(e: Answers) {
    match e.profile
    case Unreadable => true
    case Missing => false
    case Present => !e.started || e.put != Acked || !e.commandOk || e.repoint != Acked
  }

  /** The last round with a profile is the last one that published. */
  lemma {:induction false} LastPresent(rounds: seq<Answers>, i: nat)
    requires i < |rounds| && rounds[i].profile == Present && PushOk(rounds[i])
    requires forall k | i < k < |rounds| :: rounds[k].profile == Missing
    ensures LastPublished(rounds) == i
  {
    if i < |rounds| - 1 { LastPresent(rounds[..|rounds| - 1], i); }
  }

  /** The loop of `Push`, for as many rounds as the process lives: it stops at the first
      failing round, and until then the manifest leads to the output of the last round
      that pushed. */
  method Push(b: Bucket, at: Place, rounds: seq<Answers>) returns (ok: bool, done: nat)
    modifies b
    ensures done <= |rounds| && (ok <==> done == |rounds|)
    ensures forall i | 0 <= i < done :: PushOk(rounds[i])
    ensures !ok ==> !PushOk(rounds[done])
    ensures forall i | 0 <= i < |rounds| :: i == done <==> FirstFailure(rounds, i)
    ensures NoDangling(at, old(b.objects)) ==> NoDangling(at, b.objects)
    ensures ok && LastPublished(rounds) < 0 ==> b.objects == old(b.objects)
    ensures ok && LastPublished(rounds) >= 0 ==>
      && LastPublished(rounds) < |rounds|
      && PullFrom(b.objects, at) == Some(rounds[LastPublished(rounds)].output)
    ensures ok ==> forall i | 0 <= i < |rounds| && rounds[i].profile == Present &&
      (forall k | i < k < |rounds| :: rounds[k].profile == Missing) :: Leads(b.objects, at, i, rounds[i].output)
  {
    hide ObjectName, DeletePrefix, DataKey;
    var i := 0;
    while i < |rounds|
      invariant 0 <= i <= |rounds|
      invariant forall k | 0 <= k < i :: PushOk(rounds[k])
      invariant Published(old(b.objects), b.objects, at, rounds[..i])
    {
      ghost var before := b.objects;
      ok := PushOnce(b, at, i, rounds[i]);
      PublishedRound(old(b.objects), before, at, rounds[..i], rounds[i]);
      assert rounds[..i] + [rounds[i]] == rounds[..i + 1];
      if !ok {
        return false, i;
      }
      i := i + 1;
    }
    assert rounds[..|rounds|] == rounds;
    LastPublishedRange(rounds);
    forall k | 0 <= k < |rounds| && rounds[k].profile == Present &&
      (forall j | k < j < |rounds| :: rounds[j].profile == Missing)
      ensures Leads(b.objects, at, k, rounds[k].output)
    {
      LastPresent(rounds, k);
    }
    return true, i;
  }

  /** What holds after a number of successful rounds that started with `first`. */
  ghost predicate Published(first: Objects, objs: Objects, at: Place, rounds: seq<Answers>) {
    var k := LastPublished(rounds);
    && -1 <= k < |rounds|
    && (k < 0 ==> objs == first)
    && (k >= 0 ==> Leads(objs, at, k, rounds[k].output))
  }

  /** The manifest leads to this output. */
  ghost predicate Leads(objs: Objects, at: Place, ord: nat, output: string) {
    && ManifestName(at) in objs && objs[ManifestName(at)] == DataKey(at.suffix, ord)
    && DataName(at, ord) in objs && objs[DataName(at, ord)] == output
  }

  lemma PublishedRound(first: Objects, objs: Objects, at: Place, rounds: seq<Answers>, e: Answers)
    requires Published(first, objs, at, rounds)
    ensures NoDangling(at, first) ==> NoDangling(at, PushEffect(objs, at, |rounds|, e))
    ensures PushOk(e) ==> Published(first, PushEffect(objs, at, |rounds|, e), at, rounds + [e])
  {
    hide ObjectName, DeletePrefix, DataKey;
    var n := |rounds|;
    ManifestIsShorter(at, n);
    DeleteSparesManifest(at, n - 1);
    DeleteSparesCurrent(at, n);
    assert (rounds + [e])[..n] == rounds;
  }

  /** `Pull` without interference. */
  function PullFrom(objs: Objects, at: Place): Option<string> {
    var key := if ManifestName(at) in objs then objs[ManifestName(at)] else "";
    var name := ObjectName(at.prefix, key);
    if name in objs then Some(objs[name]) else None
  }

  method Pull(b: Bucket, at: Place) returns (data: Option<string>)
    ensures data == PullFrom(b.objects, at)
  {
    hide ObjectName;
    var m := b.Read(ObjectName(at.prefix, at.suffix), true);
    var key := if m.Some? then m.value else "";
    data := b.Read(ObjectName(at.prefix, key), true);
  }

  // ---------------------------------------------------------------- rounds as paths

  ghost predicate Path(at: Place, run: seq<Sys>) {
    |run| > 0 && forall i | 0 < i < |run| :: Linked(at, run, i)
  }

  function Last(run: seq<Sys>): Sys
    requires |run| > 0
  {
    run[|run| - 1]
  }

  lemma Grow(at: Place, run: seq<Sys>, step: Step) returns (run': seq<Sys>)
    requires Path(at, run) && Enabled(at, Last(run), step)
    ensures run' == run + [Do(at, Last(run), step)]
    ensures Path(at, run')
  {
    hide ObjectName, DeletePrefix, DataKey;
    run' := run + [Do(at, Last(run), step)];
    forall i | 0 < i < |run'|
      ensures Linked(at, run', i)
    {
      if i < |run| {
        assert Linked(at, run, i);
        assert run'[i] == run[i] && run'[i - 1] == run[i - 1];
      } else {
        assert run'[i - 1] == Last(run);
        assert Next(at, run'[i - 1], run'[i]);
      }
    }
  }

  /** Continues a run; if `up` holds, the pusher stays alive. */
  ghost predicate Continues(run: seq<Sys>, run': seq<Sys>, up: bool) {
    && |run'| >= |run| > 0 && run'[..|run|] == run
    && Last(run').readers == Last(run).readers
    && (up ==> forall i | |run| <= i < |run'| :: !run'[i].writer.Stopped?)
  }

  lemma WriteData(at: Place, run: seq<Sys>, e: Answers) returns (run': seq<Sys>)
    requires Path(at, run) && Last(run).writer.Idle?
    ensures Path(at, run') && Continues(run, run', e.put == Acked)
    ensures var s, s', ord := Last(run), Last(run'), Last(run).writer.ord;
      && s'.objs == (if e.put == Refused then s.objs else s.objs[DataName(at, ord) := e.output])
      && s'.writer == (if e.put == Acked then Wrote(ord, e.output) else Stopped)
      && s'.pushed == s.pushed
  {
    hide ObjectName, DeletePrefix, DataKey;
    run' := Grow(at, run, Start(e.output));
    run' := Grow(at, run', PutData(e.put));
  }

  lemma Publish(at: Place, run: seq<Sys>, e: Answers) returns (run': seq<Sys>)
    requires Path(at, run) && Last(run).writer.Wrote? && e.commandOk
    ensures Path(at, run') && Continues(run, run', e.repoint == Acked)
    ensures var s, s', w := Last(run), Last(run'), Last(run).writer;
      && s'.objs == (if e.repoint == Refused then s.objs else s.objs[ManifestName(at) := DataKey(at.suffix, w.ord)])
      && s'.writer == (if e.repoint == Acked then Repointed(w.ord, w.out) else Stopped)
      && s'.pushed == (if e.repoint == Refused then s.pushed else s.pushed + [Pushed(w.ord, w.out)])
  {
    hide ObjectName, DeletePrefix, DataKey;
    run' := Grow(at, run, CommandEnds(true));
    run' := Grow(at, run', PutManifest(e.repoint));
  }

  /** A round of the loop is a path of the transition system, so what holds of all its
      runs holds of the code. */
  lemma RoundIsAPath(at: Place, run: seq<Sys>, e: Answers) returns (run': seq<Sys>)
    requires Path(at, run) && Last(run).writer.Idle?
    ensures Path(at, run') && Continues(run, run', PushOk(e))
    ensures Last(run').objs == PushEffect(Last(run).objs, at, Last(run).writer.ord, e)
    ensures Last(run').writer == if PushOk(e) then Idle(Last(run).writer.ord + 1) else Stopped
    ensures e.profile == Present && PushOk(e) ==>
      Last(run').pushed == Last(run).pushed + [Pushed(Last(run).writer.ord, e.output)]
  {
    hide ObjectName, DeletePrefix, DataKey;
    if e.profile == Missing {
      run' := Grow(at, run, Skip);
    } else if e.profile != Present || !e.started {
      run' := Grow(at, run, Crash);
    } else {
      run' := WriteData(at, run, e);
      if e.put == Acked {
        if !e.commandOk {
          run' := Grow(at, run', CommandEnds(false));
        } else {
          run' := Publish(at, run', e);
          if e.repoint == Acked {
            run' := Grow(at, run', DeletePrevious(Hit(Doomed(at, Last(run).writer.ord - 1), e.walked)));
          }
        }
      }
    }
  }

  /** A pull without interference is the two reads of a reader. */
  lemma PullIsAPath(at: Place, run: seq<Sys>, r: nat) returns (run': seq<Sys>)
    requires Path(at, run) && r < |Last(run).readers| && Last(run).readers[r] == Waiting
    ensures Path(at, run') && |run'| == |run| + 2 && run < run'
    ensures Last(run').objs == Last(run).objs && Last(run').writer == Last(run).writer
    ensures |Last(run').readers| == |Last(run).readers| && Last(run').readers[r].Returned?
    ensures Last(run').readers[r].data == PullFrom(Last(run).objs, at)
  {
    hide ObjectName, DeletePrefix, DataKey;
    var run1 := Grow(at, run, ReadManifest(r, true));
    run' := Grow(at, run1, ReadData(r, true));
  }
}

/** DeleteData and DeleteDataAll: parallel lists of target paths and of snapshot tags or
    IDs that must stay aligned through two loops. */
module DeleteData {
  import opened Common
  import FanIn

  datatype Command =
    | Snapshots(path: string, tag: string)
    | Forget(path: string, id: string)
    | Prune(path: string)

  datatype Result =
    | Freed(bytes: int)
    | BadArguments
    | CommandFailed
    | IndexPanic

  /** How the pod answers the i-th command of each kind; `None` and false are errors. */
  datatype Pod = Pod(snapshot: nat -> Option<string>, forget: nat -> bool, prune: nat -> Option<int>)

  /** The snapshots a call names: IDs as given, or the IDs found for the tags. */
  function Wanted(tags: seq<string>, ids: seq<string>): nat {
    if |tags| > 0 then |tags| else |ids|
  }

  predicate GuardOk(tags: seq<string>, ids: seq<string>) {
    (|ids| == 0) != (|tags| == 0)
  }

  predicate TagsFound(pod: Pod, n: nat) {
    forall i: nat | i < n :: pod.snapshot(i).Some?
  }

  /** The ID that belongs to entry `i` of the call. */
  function IdOf(pod: Pod, tags: seq<string>, ids: seq<string>, i: nat): string
    requires i < Wanted(tags, ids)
    requires |tags| > 0 ==> TagsFound(pod, |tags|)
  {
    if |tags| > 0 then pod.snapshot(i).value else ids[i]
  }

  function Forgets(log: seq<Command>): seq<Command> {
    if log == [] then []
    else Forgets(log[..|log| - 1]) + if log[|log| - 1].Forget? then [log[|log| - 1]] else []
  }

  function SnapshotsIn(log: seq<Command>): seq<Command> {
    if log == [] then []
    else SnapshotsIn(log[..|log| - 1]) + if log[|log| - 1].Snapshots? then [log[|log| - 1]] else []
  }

  function Prunes(log: seq<Command>): seq<Command> {
    if log == [] then []
    else Prunes(log[..|log| - 1]) + if log[|log| - 1].Prune? then [log[|log| - 1]] else []
  }

  lemma Append(log: seq<Command>, c: Command)
    ensures Forgets(log + [c]) == Forgets(log) + if c.Forget? then [c] else []
    ensures SnapshotsIn(log + [c]) == SnapshotsIn(log) + if c.Snapshots? then [c] else []
    ensures Prunes(log + [c]) == Prunes(log) + if c.Prune? then [c] else []
  {
    assert (log + [c])[..|log|] == log;
  }

  lemma EmptyLog()
    ensures Forgets([]) == [] && Prunes([]) == [] && SnapshotsIn([]) == []
  {
  }

  function Total(prune: nat -> Option<int>, n: nat): int {
    if n == 0 then 0
    else Total(prune, n - 1) + (if prune(n - 1).Some? then prune(n - 1).value else 0)
  }

  function Sum(xs: seq<int>): int {
    if xs == [] then 0 else xs[0] + Sum(xs[1..])
  }

  lemma {:induction false} SumAppend(xs: seq<int>, x: int)
    ensures Sum(xs + [x]) == Sum(xs) + x
  {
    if xs != [] {
      SumAppend(xs[1..], x);
      assert (xs + [x])[1..] == xs[1..] + [x];
    }
  }

  /** The total is the sum of what the prunes freed. */
  lemma {:induction false} TotalIsSum(prune: nat -> Option<int>, freed: seq<int>)
    requires forall i: nat | i < |freed| :: prune(i) == Some(freed[i])
    ensures Total(prune, |freed|) == Sum(freed)
  {
    if freed != [] {
      var init := freed[..|freed| - 1];
      TotalIsSum(prune, init);
      SumAppend(init, freed[|freed| - 1]);
      assert init + [freed[|freed| - 1]] == freed;
    }
  }

  /** Every entry is looked up, forgotten and pruned without an error. */
  predicate AllAnswered(pod: Pod, reclaim: bool, tags: seq<string>, n: nat) {
    && (|tags| > 0 ==> TagsFound(pod, |tags|))
    && Answered(pod, reclaim, n)
  }

  /** The j-th snapshot forgotten is the j-th one asked for, at the j-th path. */
  ghost predicate Aligned(paths: seq<string>, pod: Pod, tags: seq<string>, ids: seq<string>, log: seq<Command>) {
    var f := Forgets(log);
    && |f| <= Wanted(tags, ids) && |f| <= |paths|
    && (|f| > 0 && |tags| > 0 ==> TagsFound(pod, |tags|))
    && forall j | 0 <= j < |f| :: f[j] == Forget(paths[j], IdOf(pod, tags, ids, j))
  }

  /** The first loop: the ID of the snapshot behind every tag, looked up at the path of
      the same index. */
  method FindTagged(paths: seq<string>, tags: seq<string>, pod: Pod)
    returns (stop: Option<Result>, found: seq<string>, log: seq<Command>)
    ensures Forgets(log) == [] && Prunes(log) == []
    ensures |SnapshotsIn(log)| <= |paths| && |SnapshotsIn(log)| <= |tags|
    ensures forall j | 0 <= j < |SnapshotsIn(log)| :: SnapshotsIn(log)[j] == Snapshots(paths[j], tags[j])
    ensures stop.None? <==> |tags| <= |paths| && TagsFound(pod, |tags|)
    ensures stop.None? ==> |found| == |tags| && forall j: nat | j < |tags| :: found[j] == pod.snapshot(j).value
    ensures stop == Some(IndexPanic) <==> |paths| < |tags| && TagsFound(pod, |paths|)
    ensures stop.Some? ==> stop.value == CommandFailed || stop.value == IndexPanic
  {
    hide Forgets, Prunes, SnapshotsIn;
    EmptyLog();
    log, found := [], [];
    for i := 0 to |tags|
      invariant i <= |paths| && |found| == i
      invariant Forgets(log) == [] && Prunes(log) == []
      invariant |SnapshotsIn(log)| == i && forall j | 0 <= j < i :: SnapshotsIn(log)[j] == Snapshots(paths[j], tags[j])
      invariant TagsFound(pod, i) && forall j: nat | j < i :: found[j] == pod.snapshot(j).value
    {
      if i >= |paths| {
        return Some(IndexPanic), found, log;
      }
      Append(log, Snapshots(paths[i], tags[i]));
      log := log + [Snapshots(paths[i], tags[i])];
      var id := pod.snapshot(i);
      if id.None? {
        return Some(CommandFailed), found, log;
      }
      found := found + [id.value];
    }
    stop := None;
  }

  predicate Answered(pod: Pod, reclaim: bool, n: nat) {
    forall i: nat | i < n :: pod.forget(i) && (reclaim ==> pod.prune(i).Some?)
  }

  ghost predicate PairsUp(paths: seq<string>, all: seq<string>, f: seq<Command>) {
    |f| <= |paths| && |f| <= |all| && forall j | 0 <= j < |f| :: f[j] == Forget(paths[j], all[j])
  }

  /** The j-th prune runs at the j-th path. */
  ghost predicate PrunesInOrder(paths: seq<string>, p: seq<Command>) {
    |p| <= |paths| && forall j | 0 <= j < |p| :: p[j] == Prune(paths[j])
  }

  /** What one more round adds keeps forgets and prunes in order. */
  lemma OneMore(paths: seq<string>, all: seq<string>, f: seq<Command>, p: seq<Command>)
    requires PairsUp(paths, all, f) && PrunesInOrder(paths, p) && |f| < |paths| && |f| < |all|
    ensures PairsUp(paths, all, f + [Forget(paths[|f|], all[|f|])])
    ensures |p| == |f| ==> PrunesInOrder(paths, p + [Prune(paths[|f|])])
  {
  }

  /** One round of the second loop: forget the snapshot and, if asked, prune. */
  method ForgetOne(path: string, id: string, reclaim: bool, pod: Pod, i: nat, before: seq<Command>)
    returns (freed: Option<int>, log: seq<Command>)
    ensures freed.Some? <==> pod.forget(i) && (reclaim ==> pod.prune(i).Some?)
    ensures freed.Some? ==> freed.value == if reclaim then pod.prune(i).value else 0
    ensures Forgets(log) == Forgets(before) + [Forget(path, id)]
    ensures SnapshotsIn(log) == SnapshotsIn(before)
    ensures Prunes(log) == Prunes(before) + if reclaim && pod.forget(i) then [Prune(path)] else []
  {
    Append(before, Forget(path, id));
    log := before + [Forget(path, id)];
    if !pod.forget(i) {
      return None, log;
    }
    freed := Some(0);
    if reclaim {
      Append(log, Prune(path));
      log := log + [Prune(path)];
      freed := pod.prune(i);
    }
  }

  /** A forget command is followed by a prune unless it failed. */
  function PrunesReached(pod: Pod, forgets: nat): nat {
    if forgets > 0 && !pod.forget(forgets - 1) then forgets - 1 else forgets
  }

  /** The second loop: forget every snapshot at the path of its index, and prune. */
  method ForgetAll(paths: seq<string>, all: seq<string>, reclaim: bool, pod: Pod, before: seq<Command>)
    returns (r: Result, log: seq<Command>)
    requires Forgets(before) == [] && Prunes(before) == []
    ensures SnapshotsIn(log) == SnapshotsIn(before)
    ensures PairsUp(paths, all, Forgets(log)) && PrunesInOrder(paths, Prunes(log))
    ensures |Prunes(log)| == if reclaim then PrunesReached(pod, |Forgets(log)|) else 0
    ensures r.Freed? <==> |all| <= |paths| && Answered(pod, reclaim, |all|)
    ensures r.Freed? ==> |Forgets(log)| == |all| && r.bytes == if reclaim then Total(pod.prune, |all|) else 0
    ensures r != BadArguments
    ensures r == IndexPanic <==> |paths| < |all| && Answered(pod, reclaim, |paths|)
    ensures r == IndexPanic ==> |Forgets(log)| == |paths|
  {
    log := before;
    var total := 0;
    for i := 0 to |all|
      invariant i <= |paths|
      invariant SnapshotsIn(log) == SnapshotsIn(before)
      invariant |Forgets(log)| == i && PairsUp(paths, all, Forgets(log))
      invariant |Prunes(log)| == (if reclaim then i else 0) && PrunesInOrder(paths, Prunes(log))
      invariant Answered(pod, reclaim, i)
      invariant total == if reclaim then Total(pod.prune, i) else 0
    {
      if i >= |paths| {
        return IndexPanic, log;
      }
      var freed: Option<int>;
      OneMore(paths, all, Forgets(log), Prunes(log));
      freed, log := ForgetOne(paths[i], all[i], reclaim, pod, i, log);
      if freed.None? {
        return CommandFailed, log;
      }
      total := total + freed.value;
    }
    r := Freed(total);
  }

  /** The call indexes past the target paths. */
  predicate Panics(paths: seq<string>, tags: seq<string>, ids: seq<string>, reclaim: bool, pod: Pod) {
    && GuardOk(tags, ids)
    && |paths| < Wanted(tags, ids)
    && if |tags| > 0 then TagsFound(pod, |paths|) else Answered(pod, reclaim, |paths|)
  }

  /** Without target paths every call that the guard lets through panics. */
  lemma NoPathsPanic(tags: seq<string>, ids: seq<string>, reclaim: bool, pod: Pod)
    ensures Panics([], tags, ids, reclaim, pod) <==> GuardOk(tags, ids)
  {
  }

  /** `deleteData` and the function it runs in the pod.  The guard lets exactly one of
      the two lists through, which keeps the IDs found for tags aligned with the paths.
      There is no check that there are enough paths. */
  method Delete(paths: seq<string>, tags: seq<string>, ids: seq<string>, reclaim: bool, pod: Pod)
    returns (r: Result, log: seq<Command>)
    ensures r == BadArguments <==> (tags == [] && ids == []) || (tags != [] && ids != [])
    ensures r == BadArguments ==> log == []
    ensures Aligned(paths, pod, tags, ids, log)
    ensures forall j | 0 <= j < |SnapshotsIn(log)| ::
      j < |paths| && j < |tags| && SnapshotsIn(log)[j] == Snapshots(paths[j], tags[j])
    ensures r.Freed? <==>
      GuardOk(tags, ids) && Wanted(tags, ids) <= |paths| && AllAnswered(pod, reclaim, tags, Wanted(tags, ids))
    ensures r.Freed? ==> |Forgets(log)| == Wanted(tags, ids)
    ensures r.Freed? ==> r.bytes == if reclaim then Total(pod.prune, Wanted(tags, ids)) else 0
    ensures tags == [] ==> forall j | 0 <= j < |Forgets(log)| :: Forgets(log)[j] == Forget(paths[j], ids[j])
    ensures tags != [] ==> forall j | 0 <= j < |Forgets(log)| ::
      pod.snapshot(j).Some? && Forgets(log)[j] == Forget(paths[j], pod.snapshot(j).value)
    ensures r == IndexPanic <==> Panics(paths, tags, ids, reclaim, pod)
    ensures r == IndexPanic ==> |Forgets(log)| == if |tags| > 0 then 0 else |paths|
    ensures PrunesInOrder(paths, Prunes(log))
    ensures |Prunes(log)| == if reclaim then PrunesReached(pod, |Forgets(log)|) else 0
  {
    if (|ids| == 0) == (|tags| == 0) {
      return BadArguments, [];
    }
    var stop, found, looked := FindTagged(paths, tags, pod);
    if stop.Some? {
      return stop.value, looked;
    }
    var all := ids + found;
    assert |tags| > 0 ==> all == found;
    assert |tags| == 0 ==> all == ids;
    r, log := ForgetAll(paths, all, reclaim, pod, looked);
  }

  // ---------------------------------------------------------------- DeleteDataAll

  function PathOf(prefix: string, pod: string): string {
    prefix + "/" + pod
  }

  lemma PathsDiffer(prefix: string, p: string, q: string)
    requires p != q
    ensures PathOf(prefix, p) != PathOf(prefix, q)
  {
    assert PathOf(prefix, p)[|prefix| + 1..] == p && PathOf(prefix, q)[|prefix| + 1..] == q;
  }

  /** The j-th command forgets the snapshot of pod `p`. */
  predicate ForgetsPod(prefix: string, m: map<string, FanIn.BackupInfo>, p: string, c: Command) {
    p in m && c == Forget(PathOf(prefix, p), m[p].backupID)
  }

  /** The path and the ID at every index belong to the pod at that index. */
  ghost predicate ListsOf(prefix: string, m: map<string, FanIn.BackupInfo>, order: seq<string>,
                          paths: seq<string>, ids: seq<string>)
  {
    && |paths| == |ids| == |order|
    && forall k | 0 <= k < |order| ::
      order[k] in m && paths[k] == PathOf(prefix, order[k]) && ids[k] == m[order[k]].backupID
  }

  /** The loop over the manifest. */
  method Lists(prefix: string, m: map<string, FanIn.BackupInfo>, order: seq<string>)
    returns (paths: seq<string>, ids: seq<string>)
    requires IsIteration(m, order)
    ensures ListsOf(prefix, m, order, paths, ids)
    ensures |order| == 0 <==> m == map[]
  {
    paths, ids := [], [];
    for i := 0 to |order|
      invariant ListsOf(prefix, m, order[..i], paths, ids)
    {
      assert order[i] in order && order[..i + 1] == order[..i] + [order[i]];
      paths := paths + [PathOf(prefix, order[i])];
      ids := ids + [m[order[i]].backupID];
    }
    assert order[..|order|] == order;
    assert |order| > 0 ==> order[0] in order;
    if m != map[] {
      var k :| k in m;
      assert k in order;
    }
  }

  /** Forget commands that pair paths with IDs index by index forget no pod twice, and
      every pod if there are enough of them. */
  lemma ForgottenOnce(prefix: string, m: map<string, FanIn.BackupInfo>, order: seq<string>,
                      paths: seq<string>, ids: seq<string>, f: seq<Command>)
    requires IsIteration(m, order) && ListsOf(prefix, m, order, paths, ids) && PairsUp(paths, ids, f)
    ensures forall j | 0 <= j < |f| :: j < |order| && ForgetsPod(prefix, m, order[j], f[j])
    ensures forall i, j | 0 <= i < j < |f| :: f[i].path != f[j].path
    ensures |f| == |order| ==> forall p | p in m :: exists j | 0 <= j < |f| :: ForgetsPod(prefix, m, p, f[j])
  {
    forall i, j | 0 <= i < j < |f|
      ensures f[i].path != f[j].path
    {
      PathsDiffer(prefix, order[i], order[j]);
    }
    if |f| == |order| {
      forall p | p in m
        ensures exists j | 0 <= j < |f| :: ForgetsPod(prefix, m, p, f[j])
      {
        var j :| 0 <= j < |order| && order[j] == p;
        assert ForgetsPod(prefix, m, p, f[j]);
      }
    }
  }

  /** `deleteDataAllFunc.Exec`: in whatever order the manifest is ranged over, a success
      has forgotten the snapshot of every pod exactly once, at the path of that pod. */
  method DeleteAll(prefix: string, m: map<string, FanIn.BackupInfo>, order: seq<string>, reclaim: bool, pod: Pod)
    returns (r: Result, log: seq<Command>)
    requires IsIteration(m, order)
    ensures r == BadArguments <==> m == map[]
    ensures r != IndexPanic
    ensures r.Freed? <==> m != map[] && AllAnswered(pod, reclaim, [], |order|)
    ensures forall j | 0 <= j < |Forgets(log)| :: j < |order| && ForgetsPod(prefix, m, order[j], Forgets(log)[j])
    ensures r.Freed? ==> forall p | p in m :: exists j | 0 <= j < |Forgets(log)| ::
      ForgetsPod(prefix, m, p, Forgets(log)[j])
    ensures forall i, j | 0 <= i < j < |Forgets(log)| :: Forgets(log)[i].path != Forgets(log)[j].path
    ensures forall j | 0 <= j < |Forgets(log)| ::
      j < |order| && order[j] in m && Forgets(log)[j] == Forget(prefix + "/" + order[j], m[order[j]].backupID)
    ensures r.Freed? && reclaim ==> r.bytes == Total(pod.prune, |order|)
  {
    hide Forgets, Prunes, SnapshotsIn, Total;
    var paths, ids := Lists(prefix, m, order);
    r, log := Delete(paths, [], ids, reclaim, pod);
    ForgottenOnce(prefix, m, order, paths, ids, Forgets(log));
  }
}

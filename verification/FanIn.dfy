/** Fan-out and fan-in of BackupDataAll and RestoreDataAll: one goroutine per pod sends
    an error and then an output on two separate buffered channels, and the collector
    receives one of each per round, so an error may be paired with another pod's
    output. */
module FanIn {
  import opened Common

  // ---------------------------------------------------------------- the channels

  /** `sent[k]` counts what goroutine `k` has sent; channels hold goroutine numbers. */
  datatype World = World(
    sent: seq<nat>,
    errChan: seq<nat>,
    outChan: seq<nat>,
    errGot: seq<nat>,
    outGot: seq<nat>)

  datatype Step = SendErr(k: nat) | SendOut(k: nat) | RecvErr | RecvOut

  /** Both channels have room for one message per pod. */
  predicate Enabled(n: nat, w: World, s: Step) {
    match s
    case SendErr(k) => k < |w.sent| && w.sent[k] == 0 && |w.errChan| < n
    case SendOut(k) => k < |w.sent| && w.sent[k] == 1 && |w.outChan| < n
    case RecvErr => |w.errGot| == |w.outGot| < n && |w.errChan| > 0
    case RecvOut => |w.errGot| == |w.outGot| + 1 && |w.outChan| > 0
  }

  function Do(n: nat, w: World, s: Step): World
    requires Enabled(n, w, s)
  {
    match s
    case SendErr(k) => w.(sent := w.sent[k := 1], errChan := w.errChan + [k])
    case SendOut(k) => w.(sent := w.sent[k := 2], outChan := w.outChan + [k])
    case RecvErr => w.(errChan := w.errChan[1..], errGot := w.errGot + [w.errChan[0]])
    case RecvOut => w.(outChan := w.outChan[1..], outGot := w.outGot + [w.outChan[0]])
  }

  predicate Finished(n: nat, w: World) {
    |w.outGot| == n
  }

  function Start(n: nat): World {
    World(seq(n, k => 0), [], [], [], [])
  }

  ghost predicate Next(n: nat, w: World, w': World) {
    exists s: Step :: Enabled(n, w, s) && w' == Do(n, w, s)
  }

  ghost predicate Linked(n: nat, r: seq<World>, i: nat)
    requires 0 < i < |r|
  {
    Next(n, r[i - 1], r[i])
  }

  ghost predicate Run(n: nat, r: seq<World>) {
    |r| > 0 && r[0] == Start(n) && forall i | 0 < i < |r| :: Linked(n, r, i)
  }

  /** How many goroutines have sent at least `level` messages. */
  function Count(sent: seq<nat>, level: nat): (c: nat)
    ensures c <= |sent|
  {
    if sent == [] then 0
    else if sent[|sent| - 1] >= level then Count(sent[..|sent| - 1], level) + 1
    else Count(sent[..|sent| - 1], level)
  }

  lemma {:induction false} CountRaise(sent: seq<nat>, level: nat, k: nat, v: nat)
    requires k < |sent| && sent[k] <= v
    ensures Count(sent[k := v], level) == Count(sent, level) + if sent[k] < level <= v then 1 else 0
  {
    var z := |sent| - 1;
    if k == z {
      assert sent[k := v][..z] == sent[..z];
    } else {
      assert sent[k := v][..z] == sent[..z][k := v];
      CountRaise(sent[..z], level, k, v);
    }
  }

  lemma {:induction false} CountFull(sent: seq<nat>, level: nat)
    ensures Count(sent, level) == |sent| <==> forall k | 0 <= k < |sent| :: sent[k] >= level
  {
    if sent != [] { CountFull(sent[..|sent| - 1], level); }
  }

  lemma {:induction false} CountStart(n: nat, level: nat)
    requires level > 0
    ensures Count(seq(n, k => 0), level) == 0
  {
    if n > 0 {
      assert (seq(n, k => 0))[..n - 1] == seq(n - 1, k => 0);
      CountStart(n - 1, level);
    }
  }

  ghost predicate NoDup(s: seq<nat>) {
    forall i, j | 0 <= i < j < |s| :: s[i] != s[j]
  }

  /** The messages of one channel come from different goroutines that have sent them. */
  ghost predicate ChannelInv(w: World, got: seq<nat>, waiting: seq<nat>, level: nat) {
    && NoDup(got + waiting)
    && (forall k | k in got + waiting :: k < |w.sent| && w.sent[k] >= level)
    && |got| + |waiting| == Count(w.sent, level)
  }

  ghost predicate Inv(n: nat, w: World) {
    && |w.sent| == n
    && (forall k | 0 <= k < n :: w.sent[k] <= 2)
    && ChannelInv(w, w.errGot, w.errChan, 1)
    && ChannelInv(w, w.outGot, w.outChan, 2)
    && (|w.errGot| == |w.outGot| || |w.errGot| == |w.outGot| + 1)
    && |w.errGot| <= n
  }

  lemma SendInv(w: World, got: seq<nat>, waiting: seq<nat>, level: nat, k: nat, w': World)
    requires ChannelInv(w, got, waiting, level) && k < |w.sent| && w.sent[k] == level - 1
    requires w'.sent == w.sent[k := level]
    ensures ChannelInv(w', got, waiting + [k], level)
  {
    CountRaise(w.sent, level, k, level);
    assert got + (waiting + [k]) == (got + waiting) + [k];
  }

  lemma OtherInv(w: World, got: seq<nat>, waiting: seq<nat>, level: nat, k: nat, v: nat, w': World)
    requires ChannelInv(w, got, waiting, level) && k < |w.sent| && w.sent[k] <= v
    requires w.sent[k] >= level || v < level
    requires w'.sent == w.sent[k := v]
    ensures ChannelInv(w', got, waiting, level)
  {
    CountRaise(w.sent, level, k, v);
  }

  lemma RecvInv(w: World, got: seq<nat>, waiting: seq<nat>, level: nat)
    requires ChannelInv(w, got, waiting, level) && |waiting| > 0
    ensures ChannelInv(w, got + [waiting[0]], waiting[1..], level)
  {
    assert (got + [waiting[0]]) + waiting[1..] == got + waiting;
  }

  lemma StepInv(n: nat, w: World, s: Step)
    requires Inv(n, w) && Enabled(n, w, s)
    ensures Inv(n, Do(n, w, s))
  {
    var w' := Do(n, w, s);
    match s
    case SendErr(k) =>
      SendInv(w, w.errGot, w.errChan, 1, k, w');
      OtherInv(w, w.outGot, w.outChan, 2, k, 1, w');
    case SendOut(k) =>
      SendInv(w, w.outGot, w.outChan, 2, k, w');
      OtherInv(w, w.errGot, w.errChan, 1, k, 2, w');
    case RecvErr =>
      RecvInv(w, w.errGot, w.errChan, 1);
      assert w'.sent == w.sent;
    case RecvOut =>
      RecvInv(w, w.outGot, w.outChan, 2);
      assert w'.sent == w.sent;
  }

  lemma {:induction false} RunInv(n: nat, r: seq<World>, i: nat)
    requires Run(n, r) && i < |r|
    ensures Inv(n, r[i])
  {
    if i == 0 {
      CountStart(n, 1);
      CountStart(n, 2);
    } else {
      RunInv(n, r, i - 1);
      assert Linked(n, r, i);
      var s: Step :| Enabled(n, r[i - 1], s) && r[i] == Do(n, r[i - 1], s);
      StepInv(n, r[i - 1], s);
    }
  }

  /** The collector never deadlocks: until it has finished, some process can move. */
  lemma NeverStuck(n: nat, r: seq<World>, i: nat) returns (s: Step)
    requires Run(n, r) && i < |r| && !Finished(n, r[i])
    ensures Enabled(n, r[i], s)
  {
    RunInv(n, r, i);
    var w := r[i];
    CountFull(w.sent, 1);
    CountFull(w.sent, 2);
    if k: nat :| k < n && w.sent[k] == 0 {
      s := SendErr(k);
    } else if k: nat :| k < n && w.sent[k] == 1 {
      s := SendOut(k);
    } else if |w.errGot| == |w.outGot| {
      s := RecvErr;
    } else {
      s := RecvOut;
    }
  }

  function Progress(w: World): nat {
    Count(w.sent, 1) + Count(w.sent, 2) + |w.errGot| + |w.outGot|
  }

  lemma {:induction false} ProgressIsLength(n: nat, r: seq<World>, i: nat)
    requires Run(n, r) && i < |r|
    ensures Progress(r[i]) == i
  {
    if i == 0 {
      CountStart(n, 1);
      CountStart(n, 2);
    } else {
      ProgressIsLength(n, r, i - 1);
      assert Linked(n, r, i);
      var w := r[i - 1];
      var s: Step :| Enabled(n, w, s) && r[i] == Do(n, w, s);
      if s.SendErr? {
        CountRaise(w.sent, 1, s.k, 1);
        CountRaise(w.sent, 2, s.k, 1);
      } else if s.SendOut? {
        CountRaise(w.sent, 1, s.k, 2);
        CountRaise(w.sent, 2, s.k, 2);
      }
    }
  }

  /** Every interleaving ends: after `4 n` steps the collector has everything, and no
      run is longer. */
  lemma EveryRunEnds(n: nat, r: seq<World>)
    requires Run(n, r)
    ensures |r| <= 4 * n + 1
    ensures |r| == 4 * n + 1 ==> Finished(n, r[|r| - 1])
  {
    ProgressIsLength(n, r, |r| - 1);
    RunInv(n, r, |r| - 1);
  }

  /** A permutation of the goroutine numbers. */
  ghost predicate IsOrder(n: nat, p: seq<nat>) {
    |p| == n && NoDup(p) && forall i | 0 <= i < n :: p[i] < n
  }

  /** When the collector has finished, it has received exactly one error and one output
      of every goroutine, each channel in an order of its own. */
  lemma ArrivalsAreOrders(n: nat, r: seq<World>, i: nat)
    requires Run(n, r) && i < |r| && Finished(n, r[i])
    ensures IsOrder(n, r[i].errGot) && IsOrder(n, r[i].outGot)
  {
    RunInv(n, r, i);
    var w := r[i];
    assert forall j | 0 <= j < |w.errGot| ::
      w.errGot[j] == (w.errGot + w.errChan)[j] && w.errGot[j] in w.errGot + w.errChan;
    assert forall j | 0 <= j < |w.outGot| ::
      w.outGot[j] == (w.outGot + w.outChan)[j] && w.outGot[j] in w.outGot + w.outChan;
  }

  // ---------------------------------------------------------------- orders hit everything

  function Below(n: nat): (s: set<nat>)
    ensures |s| == n && forall j: nat :: j in s <==> j < n
  {
    if n == 0 then {} else Below(n - 1) + {n - 1}
  }

  /** `n` different numbers below `n` leave none out. */
  lemma OrderCovers(n: nat, p: seq<nat>, k: nat)
    requires IsOrder(n, p) && k < n
    ensures exists i | 0 <= i < n :: p[i] == k
  {
    if k !in p { NoDupSize(p, Below(n) - {k}); }
  }

  lemma {:induction false} NoDupSize(p: seq<nat>, s: set<nat>)
    requires NoDup(p) && forall i | 0 <= i < |p| :: p[i] in s
    ensures |p| <= |s|
  {
    if p != [] {
      var q := p[..|p| - 1];
      NoDupSize(q, s - {p[|p| - 1]});
    }
  }

  // ---------------------------------------------------------------- the collectors

  datatype BackupInfo = BackupInfo(pod: string, backupID: string, backupTag: string)

  /** How the goroutine of one pod ends. */
  datatype Job<+T> = Job(err: Option<string>, out: T)

  datatype Result<+T> = Ok(value: T) | Err(messages: seq<string>)

  function Messages(errs: seq<Option<string>>): seq<string> {
    if errs == [] then []
    else Messages(errs[..|errs| - 1]) + if errs[|errs| - 1].Some? then [errs[|errs| - 1].value] else []
  }

  function Errors<T>(jobs: seq<Job<T>>, order: seq<nat>): seq<Option<string>>
    requires IsOrder(|jobs|, order)
  {
    seq(|jobs|, i requires 0 <= i < |jobs| => jobs[order[i]].err)
  }

  function Outputs<T>(jobs: seq<Job<T>>, order: seq<nat>): seq<T>
    requires IsOrder(|jobs|, order)
  {
    seq(|jobs|, i requires 0 <= i < |jobs| => jobs[order[i]].out)
  }

  lemma {:induction false} MessagesEmpty(errs: seq<Option<string>>)
    ensures Messages(errs) == [] <==> forall i | 0 <= i < |errs| :: errs[i].None?
  {
    if errs != [] {
      var z := |errs| - 1;
      MessagesEmpty(errs[..z]);
      assert forall i | 0 <= i < z :: errs[i] == errs[..z][i];
    }
  }

  lemma {:induction false} MessagesContain(errs: seq<Option<string>>, m: string)
    ensures m in Messages(errs) <==> Some(m) in errs
  {
    if errs != [] {
      var z := |errs| - 1;
      MessagesContain(errs[..z], m);
      assert errs == errs[..z] + [errs[z]];
    }
  }

  /** The collector loop of `backupDataAll` on the messages in order of arrival. */
  method CollectBackups(errs: seq<Option<string>>, outs: seq<BackupInfo>) returns (r: Result<map<string, BackupInfo>>)
    requires |errs| == |outs|
    ensures r.Ok? <==> forall i | 0 <= i < |errs| :: errs[i].None?
    ensures r.Err? ==> r.messages == Messages(errs)
    ensures r.Ok? ==> forall i | 0 <= i < |outs| :: outs[i].pod in r.value
    ensures r.Ok? ==> forall pod | pod in r.value :: r.value[pod] in outs && r.value[pod].pod == pod
  {
    var output: map<string, BackupInfo> := map[];
    var msgs: seq<string> := [];
    for i := 0 to |outs|
      invariant msgs == Messages(errs[..i])
      invariant msgs == [] ==> forall k | 0 <= k < i :: outs[k].pod in output
      invariant forall pod | pod in output :: output[pod] in outs && output[pod].pod == pod
    {
      assert errs[..i + 1][..i] == errs[..i];
      if errs[i].Some? {
        msgs := msgs + [errs[i].value];
      } else {
        output := output[outs[i].pod := outs[i]];
      }
    }
    assert errs[..|errs|] == errs;
    MessagesEmpty(errs);
    r := if |msgs| != 0 then Err(msgs) else Ok(output);
  }

  function Merge(outs: seq<map<string, string>>): map<string, string> {
    if outs == [] then map[] else Merge(outs[..|outs| - 1]) + outs[|outs| - 1]
  }

  /** The collector loop of RestoreDataAll. */
  method CollectRestores(errs: seq<Option<string>>, outs: seq<map<string, string>>)
    returns (r: Result<map<string, string>>)
    requires |errs| == |outs|
    ensures r.Ok? <==> forall i | 0 <= i < |errs| :: errs[i].None?
    ensures r.Err? ==> r.messages == Messages(errs)
    ensures r.Ok? ==> r.value == Merge(outs)
    ensures r.Ok? ==> forall key, i | 0 <= i < |outs| && key in outs[i] && LaterLack(outs, key, i) ::
      key in r.value && r.value[key] == outs[i][key]
  {
    var output: map<string, string> := map[];
    var msgs: seq<string> := [];
    for i := 0 to |outs|
      invariant msgs == Messages(errs[..i])
      invariant msgs == [] ==> output == Merge(outs[..i])
    {
      assert errs[..i + 1][..i] == errs[..i] && outs[..i + 1][..i] == outs[..i];
      if errs[i].Some? {
        msgs := msgs + [errs[i].value];
      } else {
        output := output + outs[i];
      }
    }
    assert errs[..|errs|] == errs && outs[..|outs|] == outs;
    MessagesEmpty(errs);
    r := if |msgs| != 0 then Err(msgs) else Ok(output);
    forall key, i | 0 <= i < |outs| && key in outs[i] && LaterLack(outs, key, i)
      ensures key in Merge(outs) && Merge(outs)[key] == outs[i][key]
    {
      LastWins(outs, key, i);
    }
  }

  /** No message after message `i` has the key. */
  predicate LaterLack(outs: seq<map<string, string>>, key: string, i: nat) {
    forall j | i < j < |outs| :: key !in outs[j]
  }

  lemma {:induction false} LastWins(outs: seq<map<string, string>>, key: string, i: nat)
    requires i < |outs| && key in outs[i] && LaterLack(outs, key, i)
    ensures key in Merge(outs) && Merge(outs)[key] == outs[i][key]
  {
    if i < |outs| - 1 { LastWins(outs[..|outs| - 1], key, i); }
  }

  lemma {:induction false} MergeEntries(outs: seq<map<string, string>>, k: string)
    ensures k in Merge(outs) <==> exists i | 0 <= i < |outs| :: k in outs[i]
    ensures k in Merge(outs) ==> exists i | 0 <= i < |outs| :: k in outs[i] && outs[i][k] == Merge(outs)[k]
  {
    if outs != [] {
      var z := |outs| - 1;
      MergeEntries(outs[..z], k);
      assert outs == outs[..z] + [outs[z]];
      if k in outs[z] {
        assert k in Merge(outs);
      }
    }
  }

  /** All or nothing: whatever the two arrival orders, the errors seen are those of the
      failing pods, so there is a success exactly when every pod succeeded. */
  lemma ErrorsAreTheFailures<T>(jobs: seq<Job<T>>, order: seq<nat>)
    requires IsOrder(|jobs|, order)
    ensures (forall i | 0 <= i < |jobs| :: Errors(jobs, order)[i].None?) <==>
      (forall k | 0 <= k < |jobs| :: jobs[k].err.None?)
    ensures forall m :: m in Messages(Errors(jobs, order)) <==> exists k | 0 <= k < |jobs| :: jobs[k].err == Some(m)
  {
    var errs := Errors(jobs, order);
    forall k | 0 <= k < |jobs|
      ensures exists i | 0 <= i < |jobs| :: errs[i] == jobs[k].err
    {
      OrderCovers(|jobs|, order, k);
      var i :| 0 <= i < |jobs| && order[i] == k;
      assert errs[i] == jobs[k].err;
    }
    forall m
      ensures m in Messages(errs) <==> exists k | 0 <= k < |jobs| :: jobs[k].err == Some(m)
    {
      MessagesContain(errs, m);
      if Some(m) in errs {
        var i :| 0 <= i < |errs| && errs[i] == Some(m);
        assert jobs[order[i]].err == Some(m);
      }
    }
  }

  lemma OutputsAreTheJobs<T>(jobs: seq<Job<T>>, order: seq<nat>, o: T)
    requires IsOrder(|jobs|, order)
    ensures o in Outputs(jobs, order) <==> exists k | 0 <= k < |jobs| :: jobs[k].out == o
  {
    if k :| 0 <= k < |jobs| && jobs[k].out == o {
      OrderCovers(|jobs|, order, k);
      var i :| 0 <= i < |jobs| && order[i] == k;
      assert Outputs(jobs, order)[i] == o;
    }
    if o in Outputs(jobs, order) {
      var i :| 0 <= i < |jobs| && Outputs(jobs, order)[i] == o;
      assert jobs[order[i]].out == o;
    }
  }

  /** BackupDataAll, for every interleaving of the goroutines and every mispairing of
      the channels: success exactly when every pod was backed up, and then, for distinct
      pods, one entry per pod that holds its own backup; otherwise the messages of the
      failing pods. */
  method BackupAll(jobs: seq<Job<BackupInfo>>, ghost run: seq<World>, errOrder: seq<nat>, outOrder: seq<nat>)
    returns (r: Result<map<string, BackupInfo>>)
    requires Run(|jobs|, run) && Finished(|jobs|, run[|run| - 1])
    requires errOrder == run[|run| - 1].errGot && outOrder == run[|run| - 1].outGot
    ensures r.Ok? <==> forall k | 0 <= k < |jobs| :: jobs[k].err.None?
    ensures r.Ok? ==> r.value.Keys == set k | 0 <= k < |jobs| :: jobs[k].out.pod
    ensures r.Ok? ==> forall pod | pod in r.value :: exists k | 0 <= k < |jobs| ::
      jobs[k].out == r.value[pod] && jobs[k].out.pod == pod
    ensures r.Ok? && (forall j, k | 0 <= j < k < |jobs| :: jobs[j].out.pod != jobs[k].out.pod) ==>
      forall k | 0 <= k < |jobs| :: r.value[jobs[k].out.pod] == jobs[k].out
    ensures r.Err? ==> forall m :: m in r.messages <==> exists k | 0 <= k < |jobs| :: jobs[k].err == Some(m)
  {
    ArrivalsAreOrders(|jobs|, run, |run| - 1);
    ErrorsAreTheFailures(jobs, errOrder);
    r := CollectBackups(Errors(jobs, errOrder), Outputs(jobs, outOrder));
    if r.Ok? {
      forall k | 0 <= k < |jobs|
        ensures jobs[k].out.pod in r.value
      {
        OutputsAreTheJobs(jobs, outOrder, jobs[k].out);
      }
      forall pod | pod in r.value
        ensures exists k | 0 <= k < |jobs| :: jobs[k].out == r.value[pod] && jobs[k].out.pod == pod
      {
        OutputsAreTheJobs(jobs, outOrder, r.value[pod]);
      }
    }
  }

  /** No two pods report different values for the key. */
  ghost predicate Agreed(jobs: seq<Job<map<string, string>>>, key: string) {
    forall j, k | 0 <= j < |jobs| && 0 <= k < |jobs| && key in jobs[j].out && key in jobs[k].out ::
      jobs[j].out[key] == jobs[k].out[key]
  }

  /** RestoreDataAll: success exactly when every pod was restored, and then every entry
      of the result is one some pod reported; where pods agree, the arrival order does
      not matter. */
  method RestoreAll(jobs: seq<Job<map<string, string>>>, ghost run: seq<World>, errOrder: seq<nat>, outOrder: seq<nat>)
    returns (r: Result<map<string, string>>)
    requires Run(|jobs|, run) && Finished(|jobs|, run[|run| - 1])
    requires errOrder == run[|run| - 1].errGot && outOrder == run[|run| - 1].outGot
    ensures r.Ok? <==> forall k | 0 <= k < |jobs| :: jobs[k].err.None?
    ensures r.Ok? ==> forall key, k | 0 <= k < |jobs| && key in jobs[k].out :: key in r.value
    ensures r.Ok? ==> forall key | key in r.value :: exists k | 0 <= k < |jobs| ::
      key in jobs[k].out && jobs[k].out[key] == r.value[key]
    ensures r.Ok? ==> forall key, k | 0 <= k < |jobs| && key in jobs[k].out && Agreed(jobs, key) ::
      key in r.value && r.value[key] == jobs[k].out[key]
    ensures r.Err? ==> forall m :: m in r.messages <==> exists k | 0 <= k < |jobs| :: jobs[k].err == Some(m)
  {
    ArrivalsAreOrders(|jobs|, run, |run| - 1);
    ErrorsAreTheFailures(jobs, errOrder);
    var outs := Outputs(jobs, outOrder);
    r := CollectRestores(Errors(jobs, errOrder), outs);
    if r.Ok? {
      forall key, k | 0 <= k < |jobs| && key in jobs[k].out
        ensures key in r.value
      {
        OutputsAreTheJobs(jobs, outOrder, jobs[k].out);
        MergeEntries(outs, key);
      }
      forall key | key in r.value
        ensures exists k | 0 <= k < |jobs| :: key in jobs[k].out && jobs[k].out[key] == r.value[key]
      {
        MergeEntries(outs, key);
        var i :| 0 <= i < |outs| && key in outs[i] && outs[i][key] == r.value[key];
        assert jobs[outOrder[i]].out == outs[i];
      }
    }
  }
}

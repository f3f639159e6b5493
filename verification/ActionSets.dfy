/** The stored status of an ActionSet, the validator that guards every reconcile,
    and the in-place updates the controller applies to it, as functions on values.

    `ActionSetObject` holds the loops that compute the same updates in place. */
module ActionSets {
  import opened Common

  datatype State = Pending | Running | Complete | Failed

  datatype Phase = Phase(name: string, state: State)

  type Artifacts = map<string, string>

  datatype ActionStatus = ActionStatus(
    name: string,
    phases: seq<Phase>,
    deferPhase: Option<Phase>,
    artifacts: Artifacts)

  datatype Status = Status(
    state: State,
    runningPhase: string,
    actions: seq<ActionStatus>)

  /** What one action of the spec resolves to in its blueprint. */
  datatype ActionConfig = ActionConfig(
    name: string,
    phases: seq<string>,
    deferName: Option<string>,
    templates: Artifacts)

  type Config = seq<ActionConfig>

  // ---------------------------------------------------------------- initial status

  function InitialAction(ac: ActionConfig): ActionStatus {
    ActionStatus(
      ac.name,
      seq(|ac.phases|, i requires 0 <= i < |ac.phases| => Phase(ac.phases[i], Pending)),
      if ac.deferName.Some? then Some(Phase(ac.deferName.value, Pending)) else None,
      ac.templates)
  }

  function InitialStatus(c: Config): Status {
    Status(Pending, "", seq(|c|, a requires 0 <= a < |c| => InitialAction(c[a])))
  }

  /** Written when a blueprint, or an action in it, could not be found. */
  function FailedInit(): Status {
    Status(Failed, "", [])
  }

  // ---------------------------------------------------------------- validation

  ghost predicate PhaseOrderOk(ph: seq<Phase>) {
    forall j, k | 0 <= j < k < |ph| :: ph[j].state != Complete ==> ph[k].state == Pending
  }

  /** Some phase is pending or running. */
  ghost predicate Unsettled(ph: seq<Phase>) {
    exists k | 0 <= k < |ph| :: ph[k].state == Pending || ph[k].state == Running
  }

  /** What `validate.ActionSet` accepts for a spec of `n` actions. */
  ghost predicate Valid(n: nat, s: Status) {
    && |s.actions| == n
    && (forall a | 0 <= a < n :: PhaseOrderOk(s.actions[a].phases))
    && (s.state == Complete ==> forall a | 0 <= a < n :: !Unsettled(s.actions[a].phases))
  }

  ghost predicate AllComplete(ph: seq<Phase>) {
    forall k | 0 <= k < |ph| :: ph[k].state == Complete
  }

  /** The first `i` phases are complete and everything after index `i` is pending. */
  ghost predicate ShapedAt(ph: seq<Phase>, i: nat) {
    && i <= |ph|
    && (forall k | 0 <= k < i :: ph[k].state == Complete)
    && (forall k | i < k < |ph| :: ph[k].state == Pending)
  }

  /** The pairwise test of the validator says exactly that the phases are a run of
      complete ones, then at most one in any state, then only pending ones. */
  lemma {:induction false} PhaseOrderIsShape(ph: seq<Phase>)
    ensures PhaseOrderOk(ph) <==> exists i: nat :: ShapedAt(ph, i)
  {
    if PhaseOrderOk(ph) {
      var i := 0;
      while i < |ph| && ph[i].state == Complete
        invariant 0 <= i <= |ph|
        invariant forall k | 0 <= k < i :: ph[k].state == Complete
      {
        i := i + 1;
      }
      assert ShapedAt(ph, i);
    }
  }

  // ---------------------------------------------------------------- in-place updates

  function MarkNamed(ph: seq<Phase>, name: string): (r: seq<Phase>)
    ensures |r| == |ph| && forall k | 0 <= k < |ph| :: r[k].name == ph[k].name
    ensures forall k | 0 <= k < |ph| :: r[k].state != ph[k].state ==> r[k].name == name && r[k].state == Running
  {
    seq(|ph|, k requires 0 <= k < |ph| => if ph[k].name == name then ph[k].(state := Running) else ph[k])
  }

  /** The closure of `updateActionSetRunningPhase`. */
  function MarkRunning(s: Status, a: nat, name: string): Status
    requires a < |s.actions|
  {
    s.(runningPhase := name,
       actions := s.actions[a := s.actions[a].(phases := MarkNamed(s.actions[a].phases, name))])
  }

  /** The closures that record the end of core phase `i`. */
  function RecordCore(s: Status, a: nat, i: nat, ok: bool): Status
    requires a < |s.actions| && i < |s.actions[a].phases|
  {
    var st := s.actions[a];
    var st' := st.(phases := st.phases[i := st.phases[i].(state := if ok then Complete else Failed)]);
    if ok then s.(actions := s.actions[a := st'])
    else s.(state := Failed, runningPhase := "", actions := s.actions[a := st'])
  }

  /** The closures that record the end of the defer phase. */
  function RecordDeferred(s: Status, a: nat, ok: bool): Status
    requires a < |s.actions|
  {
    var st := s.actions[a];
    var d := if st.deferPhase.Some? then st.deferPhase.value else Phase("", Pending);
    var st' := st.(deferPhase := Some(d.(state := if ok then Complete else Failed)));
    if ok then s.(actions := s.actions[a := st'])
    else s.(state := Failed, runningPhase := "", actions := s.actions[a := st'])
  }

  /** The closures of `renderActionsetArtifacts`; `None` is a rendering error. */
  function RecordArtifacts(s: Status, a: nat, arts: Option<Artifacts>): Status
    requires a < |s.actions|
  {
    if arts.None? then s.(state := Failed, runningPhase := "")
    else s.(actions := s.actions[a := s.actions[a].(artifacts := arts.value)])
  }

  function DeferName(st: ActionStatus): string {
    if st.deferPhase.Some? then st.deferPhase.value.name else ""
  }

  predicate PhaseInAction(name: string, st: ActionStatus) {
    (exists k | 0 <= k < |st.phases| :: st.phases[k].name == name) || DeferName(st) == name
  }

  /** The closure of `maybeSetActionSetStateComplete`, reached only without errors. */
  ghost function MaybeComplete(s: Status, a: nat): Status
    requires a < |s.actions|
  {
    var s1 := if PhaseInAction(s.runningPhase, s.actions[a]) then s.(runningPhase := "") else s;
    if (forall b | 0 <= b < |s.actions| :: AllComplete(s.actions[b].phases)) && s.state != Failed
    then s1.(state := Complete)
    else s1
  }

  /** The closure of `onUpdateActionSet`. */
  function ForceComplete(s: Status): Status {
    s.(state := Complete, runningPhase := "")
  }

  /** What `onUpdateActionSet` checks before it reconciles. */
  ghost predicate CompletesOnUpdate(n: nat, s: Option<Status>) {
    s.Some? && Valid(n, s.value) && s.value.state == Running && |s.value.actions| == 0
  }
}

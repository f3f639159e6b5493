/** The object the controller mutates: loops that build, validate and update a status
    in place, each proved to compute the value the protocol steps by. */
module ActionSetObject {
  import opened Common
  import opened ActionSets

  /** An action of a blueprint, and an action of a spec that names one. */
  datatype BlueprintAction = BlueprintAction(phases: seq<string>, deferName: Option<string>, templates: Artifacts)
  type Blueprint = map<string, BlueprintAction>
  datatype SpecEntry = SpecEntry(name: string, blueprint: string)

  /** The spec names a blueprint that exists and defines the action. */
  predicate Resolves(sp: SpecEntry, bps: map<string, Blueprint>) {
    sp.blueprint != "" && sp.blueprint in bps && sp.name in bps[sp.blueprint]
  }

  function ConfigOf(sp: SpecEntry, bps: map<string, Blueprint>): ActionConfig
    requires Resolves(sp, bps)
  {
    var bpa := bps[sp.blueprint][sp.name];
    ActionConfig(sp.name, bpa.phases, bpa.deferName, bpa.templates)
  }

  function ConfigsOf(specs: seq<SpecEntry>, bps: map<string, Blueprint>): Config
    requires forall i | 0 <= i < |specs| :: Resolves(specs[i], bps)
  {
    seq(|specs|, i requires 0 <= i < |specs| => ConfigOf(specs[i], bps))
  }

  /** The status of an action that has not begun: all its phases pending, in order. */
  predicate Fresh(st: ActionStatus, name: string, bpa: BlueprintAction) {
    && st.name == name && st.artifacts == bpa.templates
    && |st.phases| == |bpa.phases|
    && (forall k | 0 <= k < |st.phases| :: st.phases[k] == Phase(bpa.phases[k], Pending))
    && (st.deferPhase.Some? <==> bpa.deferName.Some?)
    && (st.deferPhase.Some? ==> st.deferPhase.value == Phase(bpa.deferName.value, Pending))
  }

  /** `initialActionStatus`: every phase of the blueprint action, pending, in order. */
  method InitialActionStatus(sp: SpecEntry, bp: Blueprint) returns (r: Option<ActionStatus>)
    ensures r.Some? <==> sp.name in bp
    ensures r.Some? ==>
      r.value == InitialAction(ActionConfig(sp.name, bp[sp.name].phases, bp[sp.name].deferName, bp[sp.name].templates))
    ensures r.Some? ==>
      Fresh(r.value, sp.name, bp[sp.name])
  {
    if sp.name !in bp {
      return None;
    }
    var bpa := bp[sp.name];
    var phases: seq<Phase> := [];
    for i := 0 to |bpa.phases|
      invariant |phases| == i
      invariant forall k | 0 <= k < i :: phases[k] == Phase(bpa.phases[k], Pending)
    {
      phases := phases + [Phase(bpa.phases[i], Pending)];
    }
    var deferred: Option<Phase> := None;
    if bpa.deferName.Some? {
      deferred := Some(Phase(bpa.deferName.value, Pending));
    }
    r := Some(ActionStatus(sp.name, phases, deferred, bpa.templates));
    assert r.value.phases == InitialAction(ActionConfig(sp.name, bpa.phases, bpa.deferName, bpa.templates)).phases;
  }

  /** `isPhaseInAction`. */
  method IsPhaseInAction(name: string, st: ActionStatus) returns (r: bool)
    ensures r <==> PhaseInAction(name, st)
    ensures name != "" ==>
      (r <==> ((exists k | 0 <= k < |st.phases| :: st.phases[k].name == name) ||
               (st.deferPhase.Some? && st.deferPhase.value.name == name)))
  {
    for i := 0 to |st.phases|
      invariant forall k | 0 <= k < i :: st.phases[k].name != name
    {
      if st.phases[i].name == name {
        return true;
      }
    }
    r := DeferName(st) == name;
  }

  /** `actionSetStatusActions` for one action: after a phase that is not complete only
      pending ones may follow.  The flag is overwritten in every round. */
  method PhaseOrder(ph: seq<Phase>) returns (ok: bool)
    ensures ok <==> PhaseOrderOk(ph)
  {
    var sawNotComplete := false;
    for i := 0 to |ph|
      invariant forall j, k | 0 <= j < k < i :: ph[j].state != Complete ==> ph[k].state == Pending
      invariant sawNotComplete <==> i > 0 && ph[i - 1].state != Complete
    {
      if sawNotComplete && ph[i].state != Pending {
        assert ph[i - 1].state != Complete;
        return false;
      }
      sawNotComplete := ph[i].state != Complete;
    }
    ok := true;
  }

  class ActionSet {
    var state: State
    var runningPhase: string
    var actions: seq<ActionStatus>

    function Value(): Status
      reads this
    {
      Status(state, runningPhase, actions)
    }

    /** All actions but `a` are as before. */
    predicate OnlyAction(before: seq<ActionStatus>, a: nat)
      reads this
    {
      a < |before| == |actions| && forall b | 0 <= b < |actions| && b != a :: actions[b] == before[b]
    }

    /** A freshly added ActionSet, not initialised yet. */
    constructor ()
      ensures Value() == Status(Pending, "", [])
    {
      state, runningPhase, actions := Pending, "", [];
    }

    /** `initActionSetStatus`: pending actions for the whole spec, or a bare failure at
        the first action that cannot be resolved. */
    method InitStatus(specs: seq<SpecEntry>, bps: map<string, Blueprint>)
      modifies this
      ensures (forall i | 0 <= i < |specs| :: Resolves(specs[i], bps)) ==>
        Value() == InitialStatus(ConfigsOf(specs, bps))
      ensures (exists i | 0 <= i < |specs| :: !Resolves(specs[i], bps)) ==> Value() == FailedInit()
      ensures state == Failed || (state == Pending && |actions| == |specs|)
      ensures runningPhase == "" && (state == Failed ==> actions == [])
      ensures state == Failed <==> exists i | 0 <= i < |specs| ::
        specs[i].blueprint == "" || specs[i].blueprint !in bps || specs[i].name !in bps[specs[i].blueprint]
      ensures state == Pending ==> forall i | 0 <= i < |specs| ::
        && specs[i].blueprint in bps && specs[i].name in bps[specs[i].blueprint]
        && Fresh(actions[i], specs[i].name, bps[specs[i].blueprint][specs[i].name])
    {
      state, runningPhase, actions := Pending, "", [];
      var built: seq<ActionStatus> := [];
      var failed := false;
      var i := 0;
      while i < |specs| && !failed
        invariant 0 <= i <= |specs| && Value() == Status(Pending, "", [])
        invariant !failed ==>
          |built| == i && forall k | 0 <= k < i ::
            Resolves(specs[k], bps) && built[k] == InitialAction(ConfigOf(specs[k], bps))
        invariant failed ==> i < |specs| && !Resolves(specs[i], bps)
        decreases |specs| - i, !failed
      {
        if specs[i].blueprint == "" || specs[i].blueprint !in bps {
          failed := true;
        } else {
          var st := InitialActionStatus(specs[i], bps[specs[i].blueprint]);
          if st.None? {
            failed := true;
          } else {
            built := built + [st.value];
            i := i + 1;
          }
        }
      }
      if failed {
        state, runningPhase := Failed, "";
      } else {
        actions := built;
        assert built == InitialStatus(ConfigsOf(specs, bps)).actions;
      }
    }

    /** `validate.ActionSet` for a spec of `n` actions. */
    method Validate(n: nat) returns (ok: bool)
      ensures ok <==> Valid(n, Value())
    {
      if n != |actions| {
        return false;
      }
      for a := 0 to |actions|
        invariant forall b | 0 <= b < a :: PhaseOrderOk(actions[b].phases)
      {
        var order := PhaseOrder(actions[a].phases);
        if !order {
          return false;
        }
      }
      var sawRunning, sawPending := false, false;
      for a := 0 to |actions|
        invariant sawRunning || sawPending <==> exists b | 0 <= b < a :: Unsettled(actions[b].phases)
      {
        ghost var before := sawRunning || sawPending;
        var ph := actions[a].phases;
        for k := 0 to |ph|
          invariant sawRunning || sawPending <==>
            before || exists j | 0 <= j < k :: ph[j].state == Pending || ph[j].state == Running
        {
          sawRunning := sawRunning || ph[k].state == Running;
          sawPending := sawPending || ph[k].state == Pending;
        }
        assert sawRunning || sawPending <==> before || Unsettled(actions[a].phases);
      }
      ok := !((sawRunning || sawPending) && state == Complete);
    }

    /** The closure of `updateActionSetRunningPhase`. */
    method UpdateRunningPhase(a: nat, phase: string)
      requires a < |actions|
      modifies this
      ensures Value() == MarkRunning(old(Value()), a, phase)
      ensures runningPhase == phase && state == old(state) && OnlyAction(old(actions), a)
      ensures actions[a] == old(actions[a]).(phases := actions[a].phases)
      ensures |actions[a].phases| == |old(actions[a].phases)|
      ensures forall k | 0 <= k < |actions[a].phases| ::
        actions[a].phases[k] == if old(actions)[a].phases[k].name == phase then Phase(phase, Running)
                                else old(actions)[a].phases[k]
    {
      runningPhase := phase;
      var ph := actions[a].phases;
      for i := 0 to |ph|
        invariant |ph| == |old(actions)[a].phases|
        invariant forall k | 0 <= k < i :: ph[k] == MarkNamed(old(actions)[a].phases, phase)[k]
        invariant forall k | i <= k < |ph| :: ph[k] == old(actions)[a].phases[k]
      {
        if ph[i].name == phase {
          ph := ph[i := ph[i].(state := Running)];
        }
      }
      assert ph == MarkNamed(old(actions)[a].phases, phase);
      actions := actions[a := actions[a].(phases := ph)];
    }

    /** The closures that record the end of core phase `i`. */
    method RecordPhaseEnd(a: nat, i: nat, ok: bool)
      requires a < |actions| && i < |actions[a].phases|
      modifies this
      ensures Value() == RecordCore(old(Value()), a, i, ok)
      ensures OnlyAction(old(actions), a) && actions[a] == old(actions[a]).(phases := actions[a].phases)
      ensures |actions[a].phases| == |old(actions[a].phases)|
      ensures forall k | 0 <= k < |actions[a].phases| && k != i :: actions[a].phases[k] == old(actions)[a].phases[k]
      ensures actions[a].phases[i].name == old(actions)[a].phases[i].name
      ensures ok ==> actions[a].phases[i].state == Complete && state == old(state) && runningPhase == old(runningPhase)
      ensures !ok ==> actions[a].phases[i].state == Failed && state == Failed && runningPhase == ""
    {
      if !ok {
        runningPhase, state := "", Failed;
      }
      var ph := actions[a].phases;
      ph := ph[i := ph[i].(state := if ok then Complete else Failed)];
      actions := actions[a := actions[a].(phases := ph)];
    }

    /** The closures of `executeDeferPhase`. */
    method RecordDeferEnd(a: nat, ok: bool)
      requires a < |actions| && actions[a].deferPhase.Some?
      modifies this
      ensures Value() == RecordDeferred(old(Value()), a, ok)
      ensures OnlyAction(old(actions), a) && actions[a] == old(actions[a]).(deferPhase := actions[a].deferPhase)
      ensures actions[a].deferPhase.Some? && actions[a].deferPhase.value.name == old(actions[a].deferPhase.value.name)
      ensures ok ==>
        actions[a].deferPhase.value.state == Complete && state == old(state) && runningPhase == old(runningPhase)
      ensures !ok ==> actions[a].deferPhase.value.state == Failed && state == Failed && runningPhase == ""
    {
      if !ok {
        runningPhase, state := "", Failed;
      }
      var d := actions[a].deferPhase.value.(state := if ok then Complete else Failed);
      actions := actions[a := actions[a].(deferPhase := Some(d))];
    }

    /** The closures of `renderActionsetArtifacts`. */
    method RecordRendering(a: nat, arts: Option<Artifacts>)
      requires a < |actions|
      modifies this
      ensures Value() == RecordArtifacts(old(Value()), a, arts)
      ensures OnlyAction(old(actions), a) && actions[a] == old(actions[a]).(artifacts := actions[a].artifacts)
      ensures arts.Some? ==>
        actions[a].artifacts == arts.value && state == old(state) && runningPhase == old(runningPhase)
      ensures arts.None? ==> actions == old(actions) && state == Failed && runningPhase == ""
    {
      if arts.None? {
        state, runningPhase := Failed, "";
      } else {
        actions := actions[a := actions[a].(artifacts := arts.value)];
      }
    }

    /** The closure of `maybeSetActionSetStateComplete` after a run without errors. */
    method MaybeSetComplete(a: nat)
      requires a < |actions|
      modifies this
      ensures Value() == MaybeComplete(old(Value()), a)
      ensures actions == old(actions)
      ensures runningPhase == if PhaseInAction(old(runningPhase), actions[a]) then "" else old(runningPhase)
      ensures old(state) == Failed ==> state == Failed
      ensures old(state) != Failed ==>
        state == if forall b, k | 0 <= b < |actions| && 0 <= k < |actions[b].phases| ::
          actions[b].phases[k].state == Complete then Complete else old(state)
    {
      var mine := IsPhaseInAction(runningPhase, actions[a]);
      if mine {
        runningPhase := "";
      }
      for b := 0 to |actions|
        invariant actions == old(actions) && state == old(state)
        invariant runningPhase == if mine then "" else old(runningPhase)
        invariant forall d | 0 <= d < b :: AllComplete(actions[d].phases)
      {
        var ph := actions[b].phases;
        for k := 0 to |ph|
          invariant actions == old(actions) && state == old(state)
          invariant runningPhase == if mine then "" else old(runningPhase)
          invariant forall j | 0 <= j < k :: ph[j].state == Complete
        {
          if ph[k].state != Complete {
            assert !AllComplete(old(actions)[b].phases);
            return;
          }
        }
      }
      if state != Failed {
        state := Complete;
      }
    }

    /** The checks of `onUpdateActionSet`: the loops over the phases never decide
        anything, only a running ActionSet without actions is completed here. */
    method CompletesOnUpdateEvent(n: nat) returns (r: bool)
      ensures r <==> CompletesOnUpdate(n, Some(Value()))
      ensures r <==> n == 0 && state == Running && actions == []
    {
      var ok := Validate(n);
      if !ok || state != Running {
        return false;
      }
      for a := 0 to |actions| {
        for k := 0 to |actions[a].phases| {
          if actions[a].phases[k].state != Complete {
            return false;
          }
        }
      }
      r := |actions| == 0;
    }
  }
}

/** The registry of Kanister functions by name and version, and the phases resolved
    from it. */
module Registry {
  import opened Common

  /** A parsed version.  As a map key all fields count; `Same` is semantic equality. */
  datatype Version = Version(major: nat, minor: nat, patch: nat, pre: string, metadata: string, original: string)

  predicate Same(v: Version, u: Version) {
    v.major == u.major && v.minor == u.minor && v.patch == u.patch && v.pre == u.pre
  }

  const DEFAULT := "v0.0.0"
  const DEFAULT_VERSION := Version(0, 0, 0, "", "", DEFAULT)

  type Parser = string -> Option<Version>

  /** The version library parses the default version. */
  predicate ParsesDefault(parse: Parser) {
    parse(DEFAULT) == Some(DEFAULT_VERSION)
  }

  datatype Func = Func(name: string, id: nat)

  type Funcs = map<string, map<Version, Func>>

  predicate Has(fs: Funcs, name: string, v: Version) {
    name in fs && v in fs[name]
  }

  // ---------------------------------------------------------------- registration

  datatype Registered = Done | NilFunction | Panic

  function AddFunc(fs: Funcs, f: Func, v: Version): Funcs {
    fs[f.name := (if f.name in fs then fs[f.name] else map[])[v := f]]
  }

  /** A registration: a function or nil, and the version string it asks for. */
  datatype Request = Request(f: Option<Func>, version: string)

  function Verdict(fs: Funcs, q: Request, parse: Parser): Registered {
    if parse(q.version).None? then Panic
    else if q.f.None? then NilFunction
    else if Has(fs, q.f.value.name, parse(q.version).value) then Panic
    else Done
  }

  function After(fs: Funcs, q: Request, parse: Parser): Funcs {
    if Verdict(fs, q, parse) == Done then AddFunc(fs, q.f.value, parse(q.version).value) else fs
  }

  class Table {
    var funcs: Funcs

    constructor ()
      ensures funcs == map[]
    {
      funcs := map[];
    }

    /** `RegisterVersion`; `Register` is the same at the default version. */
    method RegisterVersion(f: Option<Func>, version: string, parse: Parser) returns (r: Registered)
      modifies this
      ensures r == Verdict(old(funcs), Request(f, version), parse)
      ensures funcs == After(old(funcs), Request(f, version), parse)
      ensures r == NilFunction <==> parse(version).Some? && f.None?
      ensures r == Panic <==>
        parse(version).None? || (f.Some? && Has(old(funcs), f.value.name, parse(version).value))
      ensures r != Done ==> funcs == old(funcs)
      ensures r == Done ==>
        && Has(funcs, f.value.name, parse(version).value)
        && funcs[f.value.name][parse(version).value] == f.value
        && forall name, v | (name, v) != (f.value.name, parse(version).value) ::
          && (Has(funcs, name, v) <==> Has(old(funcs), name, v))
          && (Has(funcs, name, v) ==> funcs[name][v] == old(funcs)[name][v])
    {
      var v := parse(version);
      if v.None? {
        return Panic;
      }
      if f.None? {
        return NilFunction;
      }
      var name := f.value.name;
      if name in funcs && v.value in funcs[name] {
        return Panic;
      }
      if name !in funcs {
        funcs := funcs[name := map[]];
      }
      funcs := funcs[name := funcs[name][v.value := f.value]];
      r := Done;
    }

    method Register(f: Option<Func>, parse: Parser) returns (r: Registered)
      requires ParsesDefault(parse)
      modifies this
      ensures r == Verdict(old(funcs), Request(f, DEFAULT), parse)
      ensures funcs == After(old(funcs), Request(f, DEFAULT), parse)
    {
      r := RegisterVersion(f, DEFAULT, parse);
    }
  }

  function AfterAll(fs: Funcs, qs: seq<Request>, parse: Parser): Funcs {
    if qs == [] then fs else After(AfterAll(fs, qs[..|qs| - 1], parse), qs[|qs| - 1], parse)
  }

  /** Over any sequence of registrations no entry is ever replaced or removed. */
  lemma {:induction false} EntriesAreForever(fs: Funcs, qs: seq<Request>, parse: Parser, name: string, v: Version)
    requires Has(fs, name, v)
    ensures Has(AfterAll(fs, qs, parse), name, v) && AfterAll(fs, qs, parse)[name][v] == fs[name][v]
  {
    if qs != [] { EntriesAreForever(fs, qs[..|qs| - 1], parse, name, v); }
  }

  /** Every entry is filed under the name of its function. */
  ghost predicate WellFiled(fs: Funcs) {
    forall name, v | Has(fs, name, v) :: fs[name][v].name == name
  }

  lemma {:induction false} RegistrationsStayFiled(qs: seq<Request>, parse: Parser)
    ensures WellFiled(AfterAll(map[], qs, parse))
  {
    if qs != [] { RegistrationsStayFiled(qs[..|qs| - 1], parse); }
  }

  // ---------------------------------------------------------------- resolution

  datatype Result<+T> = Ok(value: T) | Err

  /** `getFunctionVersion`: the version asked for, the default one if none is. */
  function Requested(version: string, parse: Parser): Option<Version>
  {
    if version == DEFAULT || version == "" then Some(DEFAULT_VERSION) else parse(version)
  }

  /** `regFuncVersion`. */
  function Resolve(fs: Funcs, name: string, version: string, parse: Parser): Result<Version> {
    var v := Requested(version, parse);
    if v.None? || name !in fs then Err
    else if v.value !in fs[name] then
      if Same(v.value, DEFAULT_VERSION) then Err
      else if DEFAULT_VERSION !in fs[name] then Err
      else Ok(DEFAULT_VERSION)
    else Ok(v.value)
  }

  /** A resolved version is registered, is the one asked for whenever that is registered,
      and otherwise the default one. */
  lemma ResolvedIsRegistered(fs: Funcs, name: string, version: string, parse: Parser)
    requires Resolve(fs, name, version, parse).Ok?
    ensures var v := Resolve(fs, name, version, parse).value;
      && Has(fs, name, v)
      && Requested(version, parse).Some?
      && v == if Has(fs, name, Requested(version, parse).value) then Requested(version,
        parse).value else DEFAULT_VERSION
  {
  }

  /** When a version resolves: it can be parsed, and it is registered, or the default one
      is and it is not a spelling of that.  An empty version is the default one. */
  lemma ResolvesExactlyWhen(fs: Funcs, name: string, version: string, parse: Parser)
    ensures version == "" || version == "v0.0.0" ==>
      (if Has(fs, name, DEFAULT_VERSION) then Resolve(fs, name, version, parse) == Ok(DEFAULT_VERSION)
       else Resolve(fs, name, version, parse) == Err)
    ensures version != "" && version != "v0.0.0" ==>
      (Resolve(fs, name, version, parse).Ok? <==>
        && parse(version).Some?
        && (Has(fs, name, parse(version).value) ||
            (Has(fs, name, DEFAULT_VERSION) && !Same(parse(version).value, DEFAULT_VERSION))))
    ensures version != "" && version != "v0.0.0" && parse(version).Some? && Has(fs, name, parse(version).value) ==>
      Resolve(fs, name, version, parse) == Ok(parse(version).value)
  {
  }

  /** A function of the version asked for is found exactly if that version is registered
      in the same spelling; otherwise the default one is taken. */
  lemma ResolvesAsAskedExactlyWhen(fs: Funcs, name: string, version: string, parse: Parser)
    requires Resolve(fs, name, version, parse).Ok?
    ensures Same(Resolve(fs, name, version, parse).value, Requested(version, parse).value) <==>
      Has(fs, name, Requested(version, parse).value)
  {
  }

  /** Asking for "0.1.0" silently takes the default, although "v0.1.0" is registered. */
  lemma OtherSpellingFallsBack(parse: Parser, f: Func, g: Func, fs: Funcs)
    requires ParsesDefault(parse) && parse("v0.1.0") == Some(Version(0, 1, 0, "", "", "v0.1.0"))
    requires parse("0.1.0") == Some(Version(0, 1, 0, "", "", "0.1.0")) && f.name == g.name
    requires fs == AfterAll(map[], [Request(Some(f), DEFAULT), Request(Some(g), "v0.1.0")], parse)
    ensures Resolve(fs, f.name, "0.1.0", parse) == Ok(DEFAULT_VERSION) && fs[f.name][DEFAULT_VERSION] == f
    ensures Resolve(fs, f.name, "v0.1.0", parse).Ok? && fs[f.name][Resolve(fs, f.name, "v0.1.0", parse).value] == g
  {
    var q0, q1 := Request(Some(f), DEFAULT), Request(Some(g), "v0.1.0");
    assert [q0, q1][..1] == [q0] && [q0][..0] == [];
    var fs0 := After(map[], q0, parse);
    assert AfterAll(map[], [q0], parse) == fs0;
    assert fs == After(fs0, q1, parse);
    assert "0.1.0" != DEFAULT && "v0.1.0" != DEFAULT && "v0.1.0" != "0.1.0";
  }

  /** The fallback to the default version works for every version that is not registered,
      except one that equals the default but is spelled differently. */
  lemma FallbackWorksExactlyWhen(fs: Funcs, name: string, version: string, parse: Parser)
    requires Has(fs, name, DEFAULT_VERSION) && Requested(version, parse).Some?
    ensures Resolve(fs, name, version, parse).Ok? <==>
      Has(fs, name, Requested(version, parse).value) || !Same(Requested(version, parse).value, DEFAULT_VERSION)
  {
  }

  /** Asking for "0.0.0" fails although the function is registered at "v0.0.0". */
  lemma OtherSpellingFails(parse: Parser, f: Func)
    requires ParsesDefault(parse) && parse("0.0.0") == Some(Version(0, 0, 0, "", "", "0.0.0"))
    ensures var fs := AfterAll(map[], [Request(Some(f), DEFAULT)], parse);
      Has(fs, f.name, DEFAULT_VERSION) && Resolve(fs, f.name, "0.0.0", parse) == Err
  {
    var q := Request(Some(f), DEFAULT);
    assert [q][..0] == [];
    assert AfterAll(map[], [q], parse) == After(map[], q, parse);
    assert "0.0.0" != DEFAULT;
    assert Version(0, 0, 0, "", "", "0.0.0") != DEFAULT_VERSION;
  }

  // ---------------------------------------------------------------- phases

  /** A phase of a blueprint action; `refsOk` says whether its object references render. */
  datatype BlueprintPhase = BlueprintPhase(name: string, fn: string, args: Option<string>, refsOk: bool)

  datatype Action = Action(phases: seq<BlueprintPhase>, deferPhase: Option<BlueprintPhase>)

  datatype Phase = Phase(name: string, f: Func)

  /** The phase carries the function of the resolved version. */
  predicate Carries(fs: Funcs, p: BlueprintPhase, version: string, parse: Parser, q: Phase) {
    && Resolve(fs, p.fn, version, parse).Ok?
    && Has(fs, p.fn, Resolve(fs, p.fn, version, parse).value)
    && q == Phase(p.name, fs[p.fn][Resolve(fs, p.fn, version, parse).value])
  }

  /** `GetPhases`: one phase per blueprint phase, in order, or an error exactly if the
      action is missing or some phase cannot be built. */
  method GetPhases(fs: Funcs, actions: map<string, Action>, action: string, version: string, parse: Parser)
    returns (r: Result<seq<Phase>>)
    ensures r.Ok? <==> action in actions && forall i | 0 <= i < |actions[action].phases| ::
      actions[action].phases[i].refsOk && Resolve(fs, actions[action].phases[i].fn, version, parse).Ok?
    ensures r.Ok? ==>
      && |r.value| == |actions[action].phases|
      && (forall i | 0 <= i < |r.value| :: r.value[i].name == actions[action].phases[i].name)
      && forall i | 0 <= i < |r.value| :: Carries(fs, actions[action].phases[i], version, parse, r.value[i])
  {
    if action !in actions {
      return Err;
    }
    var a := actions[action];
    var phases: seq<Phase> := [];
    for i := 0 to |a.phases|
      invariant |phases| == i
      invariant forall k | 0 <= k < i :: a.phases[k].refsOk && Carries(fs, a.phases[k], version, parse, phases[k])
    {
      var v := Resolve(fs, a.phases[i].fn, version, parse);
      if v.Err? || !a.phases[i].refsOk {
        return Err;
      }
      phases := phases + [Phase(a.phases[i].name, fs[a.phases[i].fn][v.value])];
    }
    r := Ok(phases);
  }

  /** `GetDeferPhase`. */
  method GetDeferPhase(fs: Funcs, actions: map<string, Action>, action: string, version: string, parse: Parser)
    returns (r: Result<Option<Phase>>)
    ensures r.Ok? <==>
      action in actions && (actions[action].deferPhase.Some? ==>
        actions[action].deferPhase.value.refsOk &&
        Resolve(fs, actions[action].deferPhase.value.fn, version, parse).Ok?)
    ensures r.Ok? ==> (r.value.Some? <==> actions[action].deferPhase.Some?)
    ensures r.Ok? && r.value.Some? ==> Carries(fs, actions[action].deferPhase.value, version, parse, r.value.value)
  {
    if action !in actions {
      return Err;
    }
    var d := actions[action].deferPhase;
    if d.None? {
      return Ok(None);
    }
    var v := Resolve(fs, d.value.fn, version, parse);
    if v.Err? || !d.value.refsOk {
      return Err;
    }
    r := Ok(Some(Phase(d.value.name, fs[d.value.fn][v.value])));
  }

  /** A phase that was built stays valid: whatever is registered later, the registry still
      holds its function under the version it was resolved to. */
  lemma PhasesStayValid(fs: Funcs, qs: seq<Request>, p: BlueprintPhase, version: string, parse: Parser, q: Phase)
    requires Carries(fs, p, version, parse, q)
    ensures var v := Resolve(fs, p.fn, version, parse).value;
      Has(AfterAll(fs, qs, parse), p.fn, v) && AfterAll(fs, qs, parse)[p.fn][v] == q.f
  {
    EntriesAreForever(fs, qs, parse, p.fn, Resolve(fs, p.fn, version, parse).value);
  }

  // ---------------------------------------------------------------- arguments

  /** The last phase of that name, if any. */
  function LastNamed(phases: seq<BlueprintPhase>, name: string): int {
    if phases == [] then -1
    else if phases[|phases| - 1].name == name then |phases| - 1
    else LastNamed(phases[..|phases| - 1], name)
  }

  lemma {:induction false} LastNamedIsLast(phases: seq<BlueprintPhase>, name: string)
    ensures var i := LastNamed(phases, name);
      && -1 <= i < |phases|
      && (i >= 0 ==> phases[i].name == name)
      && forall k | i < k < |phases| :: phases[k].name != name
  {
    if phases != [] { LastNamedIsLast(phases[..|phases| - 1], name); }
  }

  /** The arguments that a phase of that name ends up with. */
  function ArgsFor(phases: seq<BlueprintPhase>, name: string): Option<string> {
    var i := LastNamed(phases, name);
    if 0 <= i < |phases| then phases[i].args else None
  }

  /** `setPhaseArgs`: every phase with the name of `p` sets the arguments, so the last one
      of that name wins; arguments that do not render end it with an error. */
  method SetPhaseArgs(phases: seq<BlueprintPhase>, name: string) returns (ok: bool, args: Option<string>)
    ensures ok <==> forall i | 0 <= i < |phases| && phases[i].name == name :: phases[i].args.Some?
    ensures ok ==> args == ArgsFor(phases, name)
  {
    args := None;
    for i := 0 to |phases|
      invariant forall k | 0 <= k < i && phases[k].name == name :: phases[k].args.Some?
      invariant -1 <= LastNamed(phases[..i], name) < i
      invariant args == ArgsFor(phases[..i], name)
    {
      assert phases[..i + 1][..i] == phases[..i];
      if phases[i].name == name {
        if phases[i].args.None? {
          return false, None;
        }
        args := phases[i].args;
      }
    }
    assert phases[..|phases|] == phases;
    ok := true;
  }

  /** A phase runs with its own arguments exactly when no later phase, the defer phase
      included, shares its name, if phases of that name have different arguments. */
  lemma OwnArgumentsExactlyWhen(phases: seq<BlueprintPhase>, i: nat)
    requires i < |phases|
    requires forall k | i < k < |phases| && phases[k].name == phases[i].name :: phases[k].args != phases[i].args
    ensures ArgsFor(phases, phases[i].name) == phases[i].args <==>
      forall k | i < k < |phases| :: phases[k].name != phases[i].name
  {
    LastNamedIsLast(phases, phases[i].name);
  }

  /** The first of two phases of one name gets the arguments of the second. */
  lemma OthersArguments(p: BlueprintPhase, q: BlueprintPhase)
    requires p.name == q.name
    ensures ArgsFor([p, q], p.name) == q.args
  {
  }
}

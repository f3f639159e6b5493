/** Deriving a child ActionSet from a completed parent. */
module ChildActionSet {
  import opened Common
  import opened ActionSets
  import opened Protocol
  import opened SafetyTheorems

  type Options = map<string, string>
  type Refs = map<string, string>

  datatype ActionSpec = ActionSpec(
    name: string,
    blueprint: string,
    target: string,
    artifacts: Artifacts,
    secrets: Refs,
    configMaps: Refs,
    profile: Option<string>,
    repositoryServer: Option<string>,
    podOverride: Options,
    options: Options,
    preferredVersion: string,
    podLabels: Options,
    podAnnotations: Options)

  /** What the child takes from the status of one parent action. */
  datatype ParentStatus = ParentStatus(blueprint: string, target: string, artifacts: Artifacts)

  datatype Parent = Parent(spec: seq<ActionSpec>, state: Option<State>, status: seq<ParentStatus>)

  datatype Params = Params(
    actionName: string,
    blueprint: string,
    objects: seq<string>,
    secrets: Refs,
    configMaps: Refs,
    profile: Option<string>,
    repositoryServer: Option<string>,
    options: Options,
    podLabels: Options,
    podAnnotations: Options)

  datatype Result = Actions(actions: seq<ActionSpec>) | NotExecuted | IndexPanic

  /** One loop of `mergeOptions`: a map is copied over another in some order. */
  method CopyOver(src: Options, order: seq<string>, base: Options) returns (final: Options)
    requires IsIteration(src, order)
    ensures final == base + src
  {
    final := base;
    for i := 0 to |order|
      invariant forall k :: k in final <==> k in base || k in order[..i]
      invariant forall k | k in order[..i] :: k in src && final[k] == src[k]
      invariant forall k | k in base && k !in order[..i] :: final[k] == base[k]
    {
      assert order[i] in order && order[..i + 1] == order[..i] + [order[i]];
      final := final[order[i] := src[order[i]]];
    }
    assert order[..|order|] == order;
  }

  /** `mergeOptions`: the new options win over those of the parent. */
  method MergeOptions(src: Options, dst: Options, srcOrder: seq<string>, dstOrder: seq<string>) returns (final: Options)
    requires IsIteration(src, srcOrder) && IsIteration(dst, dstOrder)
    ensures final == dst + src
    ensures forall k :: k in final <==> k in src || k in dst
    ensures forall k | k in final :: final[k] == if k in src then src[k] else dst[k]
  {
    var copied := CopyOver(dst, dstOrder, map[]);
    assert copied == dst;
    final := CopyOver(src, srcOrder, copied);
  }

  /** Go ranges over a map in some order. */
  method RangeOver(m: Options) returns (order: seq<string>)
    ensures IsIteration(m, order)
  {
    order := [];
    var left := m.Keys;
    while left != {}
      invariant left <= m.Keys && forall k :: k in m <==> k in order || k in left
      invariant forall k | k in order :: k !in left
      invariant forall i, j | 0 <= i < j < |order| :: order[i] != order[j]
      decreases |left|
    {
      var k :| k in left;
      order, left := order + [k], left - {k};
    }
  }

  function Override(given: string, inherited: string): string {
    if given != "" then given else inherited
  }

  /** The action derived from parent action `i` before it is spread over objects. */
  function Derived(p: Parent, q: Params, i: nat): ActionSpec
    requires i < |p.status| && i < |p.spec|
  {
    ActionSpec(
      Override(q.actionName, p.spec[i].name),
      Override(q.blueprint, p.status[i].blueprint),
      p.status[i].target,
      p.status[i].artifacts,
      if |q.secrets| > 0 then q.secrets else p.spec[i].secrets,
      if |q.configMaps| > 0 then q.configMaps else p.spec[i].configMaps,
      if q.profile.Some? then q.profile else p.spec[i].profile,
      if q.repositoryServer.Some? then q.repositoryServer else p.spec[i].repositoryServer,
      map[],
      p.spec[i].options + q.options,
      "",
      q.podLabels,
      q.podAnnotations)
  }

  function Width(q: Params): nat {
    if |q.objects| > 0 then |q.objects| else 1
  }

  /** The child action for parent action `i` and the `j`-th object. */
  function Spread(p: Parent, q: Params, i: nat, j: nat): ActionSpec
    requires i < |p.status| && i < |p.spec| && j < Width(q)
  {
    if |q.objects| > 0 then Derived(p, q, i).(target := q.objects[j]) else Derived(p, q, i)
  }

  function Row(p: Parent, q: Params, i: nat): (r: seq<ActionSpec>)
    requires i < |p.status| && i < |p.spec|
    ensures |r| == Width(q) && forall j | 0 <= j < |r| :: r[j] == Spread(p, q, i, j)
  {
    seq(Width(q), j requires 0 <= j < Width(q) => Spread(p, q, i, j))
  }

  /** Everything derived from the first `n` parent actions, row by row. */
  function Rows(p: Parent, q: Params, n: nat): seq<ActionSpec>
    requires n <= |p.status| && n <= |p.spec|
  {
    if n == 0 then [] else Rows(p, q, n - 1) + Row(p, q, n - 1)
  }

  /** The field-by-field overrides of one parent action. */
  method Derive(p: Parent, q: Params, i: nat) returns (child: ActionSpec)
    requires i < |p.status| && i < |p.spec|
    ensures child == Derived(p, q, i)
  {
    var pa, ps := p.status[i], p.spec[i];
    var given := RangeOver(q.options);
    var inherited := RangeOver(ps.options);
    var options := MergeOptions(q.options, ps.options, given, inherited);
    child := ActionSpec(ps.name, pa.blueprint, pa.target, pa.artifacts, ps.secrets, ps.configMaps, ps.profile,
                        ps.repositoryServer, map[], options, "", q.podLabels, q.podAnnotations);
    if q.actionName != "" { child := child.(name := q.actionName); }
    if q.blueprint != "" { child := child.(blueprint := q.blueprint); }
    if |q.secrets| > 0 { child := child.(secrets := q.secrets); }
    if |q.configMaps| > 0 { child := child.(configMaps := q.configMaps); }
    if q.profile.Some? { child := child.(profile := q.profile); }
    if q.repositoryServer.Some? { child := child.(repositoryServer := q.repositoryServer); }
  }

  /** One parent action, spread over the new objects if there are any. */
  method SpreadOver(p: Parent, q: Params, i: nat) returns (row: seq<ActionSpec>)
    requires i < |p.status| && i < |p.spec|
    ensures row == Row(p, q, i)
  {
    var child := Derive(p, q, i);
    if |q.objects| > 0 {
      row := [];
      for j := 0 to |q.objects|
        invariant |row| == j && forall k | 0 <= k < j :: row[k] == child.(target := q.objects[k])
      {
        row := row + [child.(target := q.objects[j])];
      }
    } else {
      row := [child];
    }
  }

  /** `ChildActionSet`: the actions of a completed parent, each spread over the new
      objects, with the new parameters overriding field by field. */
  method MakeChild(p: Parent, q: Params) returns (r: Result)
    ensures r == NotExecuted <==> p.state != Some(Complete)
    ensures r == IndexPanic <==> p.state == Some(Complete) && |p.spec| < |p.status|
    ensures r.Actions? ==> |p.status| <= |p.spec| && r.actions == Rows(p, q, |p.status|)
    ensures r.Actions? ==>
      |r.actions| == |p.status| * (if |q.objects| > 0 then |q.objects| else 1)
    ensures r.Actions? ==> forall k | 0 <= k < |r.actions| :: ComesFrom(p, q, k, r.actions[k])
  {
    if p.state.None? || p.state.value != Complete {
      return NotExecuted;
    }
    var actions: seq<ActionSpec> := [];
    for i := 0 to |p.status|
      invariant i <= |p.spec| && actions == Rows(p, q, i)
    {
      if i >= |p.spec| {
        return IndexPanic;
      }
      var row := SpreadOver(p, q, i);
      actions := actions + row;
    }
    r := Actions(actions);
    RowsSize(p, q, |p.status|);
    forall k | 0 <= k < |actions|
      ensures ComesFrom(p, q, k, actions[k])
    {
      ChildByIndex(p, q, k);
    }
  }

  /** What child action `k` is made of: the object is the one at `k % m` of the `m` new ones,
      if any; everything else is what is given, or else comes from parent action `k / m`. */
  ghost predicate ComesFrom(p: Parent, q: Params, k: nat, child: ActionSpec) {
    var m := if |q.objects| > 0 then |q.objects| else 1;
    var i := k / m;
    && i < |p.status| && i < |p.spec|
    && child.target == (if |q.objects| > 0 then q.objects[k % m] else p.status[i].target)
    && child.name == (if q.actionName != "" then q.actionName else p.spec[i].name)
    && child.blueprint == (if q.blueprint != "" then q.blueprint else p.status[i].blueprint)
    && child.artifacts == p.status[i].artifacts
    && child.secrets == (if q.secrets != map[] then q.secrets else p.spec[i].secrets)
    && child.configMaps == (if q.configMaps != map[] then q.configMaps else p.spec[i].configMaps)
    && child.profile == (if q.profile.Some? then q.profile else p.spec[i].profile)
    && child.repositoryServer == (if q.repositoryServer.Some? then q.repositoryServer else p.spec[i].repositoryServer)
    && (forall o :: o in child.options <==> o in q.options || o in p.spec[i].options)
    && (forall o | o in child.options ::
          child.options[o] == if o in q.options then q.options[o] else p.spec[i].options[o])
    && child.podOverride == map[] && child.preferredVersion == ""
    && child.podLabels == q.podLabels && child.podAnnotations == q.podAnnotations
  }

  /** The child actions of one parent action differ in their target only. */
  lemma SiblingsDifferInTarget(p: Parent, q: Params, j: nat, k: nat, x: ActionSpec, y: ActionSpec)
    requires ComesFrom(p, q, j, x) && ComesFrom(p, q, k, y) && |q.objects| > 0
    requires j / |q.objects| == k / |q.objects|
    ensures x.(target := y.target) == y
  {
    assert x.options == y.options;
  }

  lemma {:induction false} RowsSize(p: Parent, q: Params, n: nat)
    requires n <= |p.status| && n <= |p.spec|
    ensures |Rows(p, q, n)| == n * Width(q)
  {
    if n > 0 {
      RowsSize(p, q, n - 1);
      assert n * Width(q) == (n - 1) * Width(q) + Width(q);
    }
  }

  lemma {:induction false} RowsByIndex(p: Parent, q: Params, n: nat, k: nat)
    requires n <= |p.status| && n <= |p.spec| && k < |Rows(p, q, n)|
    ensures k / Width(q) < n && Rows(p, q, n)[k] == Spread(p, q, k / Width(q), k % Width(q))
  {
    hide Spread, Derived, Width;
    assert n > 0;
    var rest, row := Rows(p, q, n - 1), Row(p, q, n - 1);
    assert Rows(p, q, n) == rest + row;
    if k < |rest| {
      RowsByIndex(p, q, n - 1, k);
    } else {
      RowsSize(p, q, n - 1);
      QuotientOf(n - 1, k - |rest|, Width(q));
      assert k == (n - 1) * Width(q) + (k - |rest|);
    }
  }

  lemma AtLeast(m: nat, d: nat)
    requires d > 0
    ensures m * d >= m
  {
  }

  lemma QuotientOf(i: nat, j: nat, m: nat)
    requires j < m
    ensures (i * m + j) / m == i && (i * m + j) % m == j
  {
    var k := i * m + j;
    var d, e := k / m, k % m;
    assert k == m * d + e;
    if d < i {
      AtLeast(m, i - d);
    } else if d > i {
      AtLeast(m, d - i);
    }
  }

  /** The child has exactly one action per parent action and object, and its action `k`
      comes from parent action `k / m` and object `k % m`. */
  lemma ChildByIndex(p: Parent, q: Params, k: nat)
    requires |p.status| <= |p.spec| && k < |Rows(p, q, |p.status|)|
    ensures |Rows(p, q, |p.status|)| == |p.status| * Width(q)
    ensures k / Width(q) < |p.status|
    ensures Rows(p, q, |p.status|)[k] == Spread(p, q, k / Width(q), k % Width(q))
    ensures ComesFrom(p, q, k, Rows(p, q, |p.status|)[k])
  {
    RowsSize(p, q, |p.status|);
    RowsByIndex(p, q, |p.status|, k);
  }

  /** A parent as the controller leaves it: its status lists are those of a reachable
      stored status for a spec that resolves to `c`. */
  ghost predicate LeftByController(c: Config, s: Status, p: Parent) {
    |p.spec| == |c| && p.state == Some(s.state) && |p.status| == |s.actions|
  }

  /** The child of an ActionSet that the controller completed never runs out of spec
      actions, over every run of the controller. */
  lemma CompletedParentsAreSafe(c: Config, r: seq<World>, i: nat, p: Parent)
    requires Run(c, r) && i < |r| && r[i].store.status.Some?
    requires LeftByController(c, r[i].store.status.value, p) && p.state == Some(Complete)
    ensures |p.status| == |p.spec|
  {
    CompleteMeansComplete(c, r, i);
  }
}

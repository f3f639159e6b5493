/** Resource filters: matchers by type, name and labels, and the lists they filter. */
module Filters {
  import opened Common

  datatype GVR = GVR(group: string, version: string, resource: string)

  datatype TypeReq = TypeReq(group: string, version: string, resource: string)

  const CORE_GROUP := "core"

  predicate Accepts(sel: string, val: string) {
    sel == "" || sel == val
  }

  predicate TypeMatches(r: TypeReq, t: GVR) {
    && (if r.group == CORE_GROUP then t.group == "" else Accepts(r.group, t.group))
    && Accepts(r.version, t.version)
    && Accepts(r.resource, t.resource)
  }

  type TypeMatcher = seq<TypeReq>

  predicate AnyType(m: TypeMatcher, t: GVR) {
    exists i | 0 <= i < |m| :: TypeMatches(m[i], t)
  }

  type LabelMap = map<string, string>

  /** No label selector, or one that evaluates labels or cannot be evaluated. */
  datatype Selector = NoSelector | Selector(eval: LabelMap -> Option<bool>)

  datatype ResourceReq = ResourceReq(name: string, typ: TypeReq, labels: Selector)

  datatype Resource = Resource(name: string, gvr: GVR, labels: LabelMap)

  type ResourceMatcher = seq<ResourceReq>

  predicate ReqMatches(q: ResourceReq, r: Resource) {
    && Accepts(q.name, r.name)
    && TypeMatches(q.typ, r.gvr)
    && (q.labels.NoSelector? || q.labels.eval(r.labels) == Some(true))
  }

  predicate AnyReq(m: ResourceMatcher, r: Resource) {
    exists i | 0 <= i < |m| :: ReqMatches(m[i], r)
  }

  // ---------------------------------------------------------------- what a requirement asks for

  /** An empty requirement asks for nothing. */
  lemma EmptyMatchesAll(r: Resource)
    ensures TypeMatches(TypeReq("", "", ""), r.gvr)
    ensures ReqMatches(ResourceReq("", TypeReq("", "", ""), NoSelector), r)
  {
  }

  /** Each field of a type requirement, if set, narrows it to the types that have this
      value; the group "core" stands for the empty one. */
  lemma TypeFieldsNarrow(q: TypeReq, s: string, t: GVR)
    requires s != ""
    ensures TypeMatches(q.(group := s), t) <==>
      TypeMatches(q.(group := ""), t) && t.group == if s == "core" then "" else s
    ensures TypeMatches(q.(version := s), t) <==> TypeMatches(q.(version := ""), t) && t.version == s
    ensures TypeMatches(q.(resource := s), t) <==> TypeMatches(q.(resource := ""), t) && t.resource == s
  {
  }

  /** The same for the name, the type and the labels of a requirement; labels that cannot be
      evaluated match nothing. */
  lemma FieldsNarrow(q: ResourceReq, name: string, typ: TypeReq, eval: LabelMap -> Option<bool>, r: Resource)
    requires name != ""
    ensures ReqMatches(q.(name := name), r) <==> ReqMatches(q.(name := ""), r) && r.name == name
    ensures ReqMatches(q.(typ := typ), r) <==> ReqMatches(q.(typ := TypeReq("", "", "")), r) && TypeMatches(typ, r.gvr)
    ensures ReqMatches(q.(labels := Selector(eval)), r) <==>
      ReqMatches(q.(labels := NoSelector), r) && eval(r.labels) == Some(true)
  {
  }

  // ---------------------------------------------------------------- filtering a list

  function Keep<T>(xs: seq<T>, f: T -> bool): seq<T> {
    if xs == [] then []
    else Keep(xs[..|xs| - 1], f) + if f(xs[|xs| - 1]) then [xs[|xs| - 1]] else []
  }

  function Concat<T>(ms: seq<seq<T>>): seq<T> {
    if ms == [] then [] else Concat(ms[..|ms| - 1]) + ms[|ms| - 1]
  }

  function FilterTypes(g: seq<GVR>, ms: seq<TypeMatcher>, exclude: bool): seq<GVR> {
    var m := Concat(ms);
    if |m| == 0 then g else Keep(g, t => exclude != AnyType(m, t))
  }

  function FilterResources(rl: seq<Resource>, m: ResourceMatcher, exclude: bool): seq<Resource> {
    if |m| == 0 then rl else Keep(rl, r => exclude != AnyReq(m, r))
  }

  /** The positions of the kept elements. */
  function Kept<T>(xs: seq<T>, f: T -> bool): seq<nat> {
    if xs == [] then []
    else Kept(xs[..|xs| - 1], f) + if f(xs[|xs| - 1]) then [|xs| - 1] else []
  }

  /** Filtering keeps exactly the elements that pass, in their order. */
  lemma {:induction false} KeepIsSelection<T>(xs: seq<T>, f: T -> bool)
    ensures var k := Kept(xs, f);
      && |k| == |Keep(xs, f)|
      && (forall i | 0 <= i < |k| :: k[i] < |xs| && Keep(xs, f)[i] == xs[k[i]])
      && (forall i, j | 0 <= i < j < |k| :: k[i] < k[j])
      && (forall p: nat :: p in k <==> p < |xs| && f(xs[p]))
  {
    if xs != [] { KeepIsSelection(xs[..|xs| - 1], f); }
  }

  lemma {:induction false} KeepKeep<T>(xs: seq<T>, f: T -> bool, g: T -> bool, h: T -> bool)
    requires forall i | 0 <= i < |xs| :: h(xs[i]) <==> f(xs[i]) && g(xs[i])
    ensures Keep(Keep(xs, f), g) == Keep(xs, h)
  {
    if xs != [] {
      var ys, z := xs[..|xs| - 1], xs[|xs| - 1];
      KeepKeep(ys, f, g, h);
      if f(z) {
        assert (Keep(ys, f) + [z])[..|Keep(ys, f)|] == Keep(ys, f);
      } else {
        assert Keep(xs, f) == Keep(ys, f);
      }
    }
  }

  lemma {:induction false} KeepSame<T>(xs: seq<T>, f: T -> bool, g: T -> bool)
    requires forall i | 0 <= i < |xs| :: f(xs[i]) <==> g(xs[i])
    ensures Keep(xs, f) == Keep(xs, g)
  {
    if xs != [] { KeepSame(xs[..|xs| - 1], f, g); }
  }

  lemma {:induction false} KeepAll<T>(xs: seq<T>, f: T -> bool)
    requires forall i | 0 <= i < |xs| :: f(xs[i])
    ensures Keep(xs, f) == xs
  {
    if xs != [] { KeepAll(xs[..|xs| - 1], f); }
  }

  lemma KeepMember<T>(xs: seq<T>, f: T -> bool, x: T)
    ensures x in Keep(xs, f) <==> x in xs && f(x)
  {
    KeepIsSelection(xs, f);
    if x in xs && f(x) {
      var p :| 0 <= p < |xs| && xs[p] == x;
      assert p in Kept(xs, f);
      var i :| 0 <= i < |Kept(xs, f)| && Kept(xs, f)[i] == p;
      assert Keep(xs, f)[i] == x;
    }
  }

  // ---------------------------------------------------------------- the loops

  /** `JoinResourceTypeMatchers`: copies every matcher to its offset in one slice. */
  method Join(ms: seq<TypeMatcher>) returns (r: TypeMatcher)
    ensures r == Concat(ms)
  {
    var n := 0;
    for k := 0 to |ms|
      invariant n == |Concat(ms[..k])|
    {
      assert ms[..k + 1][..k] == ms[..k];
      n := n + |ms[k]|;
    }
    assert ms[..|ms|] == ms;
    var gvr := new TypeReq[n];
    var i := 0;
    for k := 0 to |ms|
      invariant i == |Concat(ms[..k])| <= n
      invariant gvr[..i] == Concat(ms[..k])
    {
      assert ms[..k + 1][..k] == ms[..k];
      ConcatPrefix(ms, k + 1);
      for j := 0 to |ms[k]|
        invariant gvr[..i] == Concat(ms[..k])
        invariant forall p | 0 <= p < j :: gvr[i + p] == ms[k][p]
      {
        gvr[i + j] := ms[k][j];
      }
      i := i + |ms[k]|;
      assert gvr[..i] == Concat(ms[..k]) + ms[k];
    }
    r := gvr[..];
  }

  lemma {:induction false} ConcatPrefix<T>(ms: seq<seq<T>>, k: nat)
    requires k <= |ms|
    ensures |Concat(ms[..k])| <= |Concat(ms)|
  {
    if k < |ms| {
      ConcatPrefix(ms[..|ms| - 1], k);
      assert ms[..|ms| - 1][..k] == ms[..k];
    } else {
      assert ms[..k] == ms;
    }
  }

  /** A joined matcher holds the requirements of all of them. */
  lemma {:induction false} ConcatMember<T>(ms: seq<seq<T>>)
    ensures forall x :: x in Concat(ms) <==> exists k | 0 <= k < |ms| :: x in ms[k]
    ensures Concat(ms) == [] <==> forall k | 0 <= k < |ms| :: ms[k] == []
  {
    if ms != [] {
      ConcatMember(ms[..|ms| - 1]);
      assert ms == ms[..|ms| - 1] + [ms[|ms| - 1]];
    }
  }

  lemma AnyTypeOfJoined(ms: seq<TypeMatcher>, t: GVR)
    ensures AnyType(Concat(ms), t) <==>
      exists k, i | 0 <= k < |ms| && 0 <= i < |ms[k]| :: TypeMatches(ms[k][i], t)
  {
    ConcatMember(ms);
    if i :| 0 <= i < |Concat(ms)| && TypeMatches(Concat(ms)[i], t) {
      var x := Concat(ms)[i];
      assert x in Concat(ms);
      var k :| 0 <= k < |ms| && x in ms[k];
      var j :| 0 <= j < |ms[k]| && ms[k][j] == x;
    }
    if k, i :| 0 <= k < |ms| && 0 <= i < |ms[k]| && TypeMatches(ms[k][i], t) {
      assert ms[k][i] in ms[k] && ms[k][i] in Concat(ms);
      var j :| 0 <= j < |Concat(ms)| && Concat(ms)[j] == ms[k][i];
    }
  }

  /** `GroupVersionResourceList.apply`. */
  method ApplyTypes(g: seq<GVR>, ms: seq<TypeMatcher>, exclude: bool) returns (r: seq<GVR>)
    ensures r == FilterTypes(g, ms, exclude)
    ensures (forall k | 0 <= k < |ms| :: ms[k] == []) ==> r == g
    ensures (exists k | 0 <= k < |ms| :: ms[k] != []) ==> forall t ::
      t in r <==> t in g && exclude != exists k, i | 0 <= k < |ms| && 0 <= i < |ms[k]| :: TypeMatches(ms[k][i], t)
  {
    var m := Join(ms);
    ConcatMember(ms);
    if |m| == 0 {
      return g;
    }
    r := [];
    for i := 0 to |g|
      invariant r == Keep(g[..i], t => exclude != AnyType(m, t))
    {
      assert g[..i + 1][..i] == g[..i];
      if exclude != AnyType(m, g[i]) {
        r := r + [g[i]];
      }
    }
    assert g[..|g|] == g;
    forall t
      ensures
        t in r <==> t in g && exclude != exists k, i | 0 <= k < |ms| && 0 <= i < |ms[k]| :: TypeMatches(ms[k][i], t)
    {
      KeepMember(g, y => exclude != AnyType(m, y), t);
      AnyTypeOfJoined(ms, t);
    }
  }

  /** `ResourceList.apply`. */
  method ApplyResources(rl: seq<Resource>, m: ResourceMatcher, exclude: bool) returns (r: seq<Resource>)
    ensures r == FilterResources(rl, m, exclude)
    ensures forall x :: x in r <==> x in rl && (m == [] || (exclude != exists i | 0 <= i < |m| :: ReqMatches(m[i], x)))
  {
    if |m| == 0 {
      return rl;
    }
    r := [];
    for i := 0 to |rl|
      invariant r == Keep(rl[..i], x => exclude != AnyReq(m, x))
    {
      assert rl[..i + 1][..i] == rl[..i];
      if exclude != AnyReq(m, rl[i]) {
        r := r + [rl[i]];
      }
    }
    assert rl[..|rl|] == rl;
    forall x
      ensures x in r <==> x in rl && exclude != AnyReq(m, x)
    {
      KeepMember(rl, y => exclude != AnyReq(m, y), x);
    }
  }

  /** A requirement that asks for a type and nothing else. */
  predicate PureType(q: ResourceReq) {
    q.name == "" && q.labels.NoSelector?
  }

  function TypesOf(m: ResourceMatcher, inclusion: bool): TypeMatcher {
    if m == [] then []
    else TypesOf(m[..|m| - 1], inclusion) + if inclusion || PureType(m[|m| - 1]) then [m[|m| - 1].typ] else []
  }

  /** `ResourceMatcher.TypeMatcher`. */
  method TypeMatcherOf(m: ResourceMatcher, inclusion: bool) returns (r: TypeMatcher)
    ensures r == TypesOf(m, inclusion)
    ensures forall t :: AnyType(r, t) <==>
      exists i | 0 <= i < |m| :: (inclusion || PureType(m[i])) && TypeMatches(m[i].typ, t)
    ensures inclusion ==> |r| == |m|
  {
    r := [];
    for i := 0 to |m|
      invariant r == TypesOf(m[..i], inclusion)
    {
      assert m[..i + 1][..i] == m[..i];
      if inclusion || PureType(m[i]) {
        r := r + [m[i].typ];
      }
    }
    assert m[..|m|] == m;
    forall t
      ensures AnyType(r, t) <==> exists i | 0 <= i < |m| :: (inclusion || PureType(m[i])) && TypeMatches(m[i].typ, t)
    {
      TypesOfAny(m, inclusion, t);
    }
    TypesOfSize(m, inclusion);
  }

  lemma {:induction false} TypesOfAny(m: ResourceMatcher, inclusion: bool, t: GVR)
    ensures AnyType(TypesOf(m, inclusion), t) <==>
      exists i | 0 <= i < |m| :: (inclusion || PureType(m[i])) && TypeMatches(m[i].typ, t)
  {
    if m != [] {
      var z := |m| - 1;
      TypesOfAny(m[..z], inclusion, t);
      var rest, all := TypesOf(m[..z], inclusion), TypesOf(m, inclusion);
      if inclusion || PureType(m[z]) {
        assert all[|rest|] == m[z].typ && all[..|rest|] == rest;
        if i :| 0 <= i < |rest| && TypeMatches(rest[i], t) { assert all[i] == rest[i]; }
      } else {
        assert all == rest;
      }
    }
  }

  lemma {:induction false} TypesOfSize(m: ResourceMatcher, inclusion: bool)
    ensures inclusion ==> |TypesOf(m, inclusion)| == |m|
  {
    if m != [] { TypesOfSize(m[..|m| - 1], inclusion); }
  }

  // ---------------------------------------------------------------- the pre-filter

  lemma ConcatOne<T>(m: seq<T>)
    ensures Concat([m]) == m
  {
    assert [m][..0] == [];
  }

  /** The type list survives the type-level filter exactly as the requirements say. */
  lemma TypeSurvives(gs: seq<GVR>, m: ResourceMatcher, exclude: bool, t: GVR)
    requires t in gs
    ensures t in FilterTypes(gs, [TypesOf(m, !exclude)], exclude) <==>
      TypesOf(m, !exclude) == [] || exclude != AnyType(TypesOf(m, !exclude), t)
  {
    var tm := TypesOf(m, !exclude);
    ConcatOne(tm);
    KeepMember(gs, x => exclude != AnyType(Concat([tm]), x), t);
  }

  /** Restricting the resources to types that survive the coarse type filter first,
      changes neither an inclusion nor an exclusion, for any matcher, empty or not. */
  lemma PreFilterIsSound(rl: seq<Resource>, gs: seq<GVR>, m: ResourceMatcher, exclude: bool)
    requires forall i | 0 <= i < |rl| :: rl[i].gvr in gs
    ensures var types := FilterTypes(gs, [TypesOf(m, !exclude)], exclude);
      FilterResources(Keep(rl, (r: Resource) => r.gvr in types), m, exclude) == FilterResources(rl, m, exclude)
  {
    var tm := TypesOf(m, !exclude);
    var types := FilterTypes(gs, [tm], exclude);
    var pre := (r: Resource) => r.gvr in types;
    TypesOfSize(m, !exclude);
    forall i | 0 <= i < |rl|
      ensures pre(rl[i]) <==> tm == [] || exclude != AnyType(tm, rl[i].gvr)
    {
      TypeSurvives(gs, m, exclude, rl[i].gvr);
    }
    if |m| == 0 {
      KeepAll(rl, pre);
    } else {
      var post := (r: Resource) => exclude != AnyReq(m, r);
      forall i | 0 <= i < |rl|
        ensures post(rl[i]) <==> pre(rl[i]) && post(rl[i])
      {
        TypesOfAny(m, !exclude, rl[i].gvr);
        if !exclude && post(rl[i]) {
          var j :| 0 <= j < |m| && ReqMatches(m[j], rl[i]);
          assert TypeMatches(m[j].typ, rl[i].gvr);
        }
        if exclude && !pre(rl[i]) {
          var j :| 0 <= j < |m| && PureType(m[j]) && TypeMatches(m[j].typ, rl[i].gvr);
          assert ReqMatches(m[j], rl[i]);
        }
      }
      KeepKeep(rl, pre, post, post);
    }
  }

  /** The flag matters: excluding by the inclusion types loses resources that the precise
      exclusion keeps, exactly when a kept resource has the type of some requirement. */
  lemma WrongFlagLoses(rl: seq<Resource>, m: ResourceMatcher)
    requires |m| > 0
    ensures var coarse := Keep(rl, (r: Resource) => !AnyType(TypesOf(m, true), r.gvr));
      FilterResources(coarse, m, true) == FilterResources(rl, m, true) <==>
        forall i | 0 <= i < |rl| :: AnyType(TypesOf(m, true), rl[i].gvr) ==> AnyReq(m, rl[i])
  {
    var pre, post := (r: Resource) => !AnyType(TypesOf(m, true), r.gvr), (r: Resource) => true != AnyReq(m, r);
    var both := (r: Resource) => pre(r) && post(r);
    KeepKeep(rl, pre, post, both);
    if forall i | 0 <= i < |rl| :: AnyType(TypesOf(m, true), rl[i].gvr) ==> AnyReq(m, rl[i]) {
      KeepSame(rl, both, post);
    } else {
      var i :| 0 <= i < |rl| && AnyType(TypesOf(m, true), rl[i].gvr) && !AnyReq(m, rl[i]);
      KeepMember(rl, both, rl[i]);
      KeepMember(rl, post, rl[i]);
    }
  }

  // ---------------------------------------------------------------- algebra

  lemma {:induction false} AnyTypeConcat(a: TypeMatcher, b: TypeMatcher, t: GVR)
    ensures AnyType(a + b, t) <==> AnyType(a, t) || AnyType(b, t)
  {
    if i :| 0 <= i < |a| && TypeMatches(a[i], t) { assert (a + b)[i] == a[i]; }
    if i :| 0 <= i < |b| && TypeMatches(b[i], t) { assert (a + b)[|a| + i] == b[i]; }
  }

  lemma ConcatTwo<T>(a: seq<T>, b: seq<T>)
    ensures Concat([a, b]) == a + b
  {
    assert [a, b][..1] == [a];
    ConcatOne(a);
  }

  /** Excluding by `a` and then by `b` is excluding by both at once, for all matchers. */
  lemma ExcludeTwice(g: seq<GVR>, a: TypeMatcher, b: TypeMatcher)
    ensures FilterTypes(FilterTypes(g, [a], true), [b], true) == FilterTypes(g, [a, b], true)
  {
    ConcatOne(a);
    ConcatOne(b);
    ConcatTwo(a, b);
    var fa, fb := (t: GVR) => true != AnyType(Concat([a]), t), (t: GVR) => true != AnyType(Concat([b]), t);
    var fab := (t: GVR) => true != AnyType(Concat([a, b]), t);
    forall i | 0 <= i < |g|
      ensures fab(g[i]) <==> fa(g[i]) && fb(g[i])
    {
      AnyTypeConcat(a, b, g[i]);
    }
    KeepKeep(g, fa, fb, fab);
    if |a| == 0 { KeepAll(g, fa); }
    if |b| == 0 {
      KeepAll(g, fb);
      KeepSame(g, fa, fab);
    }
  }

  lemma {:induction false} KeepSplits<T>(xs: seq<T>, f: T -> bool, g: T -> bool)
    requires forall i | 0 <= i < |xs| :: f(xs[i]) <==> !g(xs[i])
    ensures multiset(Keep(xs, f)) + multiset(Keep(xs, g)) == multiset(xs)
  {
    if xs != [] {
      var ys, z := xs[..|xs| - 1], xs[|xs| - 1];
      assert xs == ys + [z];
      KeepSplits(ys, f, g);
    }
  }

  /** A matcher that is not empty splits a list: every entry is included or excluded,
      with its multiplicity, and never both. */
  lemma IncludeExcludePartition(g: seq<GVR>, ms: seq<TypeMatcher>)
    requires Concat(ms) != []
    ensures multiset(FilterTypes(g, ms, false)) + multiset(FilterTypes(g, ms, true)) == multiset(g)
    ensures forall t :: !(t in FilterTypes(g, ms, false) && t in FilterTypes(g, ms, true))
  {
    var f, h := (t: GVR) => false != AnyType(Concat(ms), t), (t: GVR) => true != AnyType(Concat(ms), t);
    KeepSplits(g, f, h);
    forall t
      ensures !(t in FilterTypes(g, ms, false) && t in FilterTypes(g, ms, true))
    {
      KeepMember(g, f, t);
      KeepMember(g, h, t);
    }
  }

  function Requirements(m: TypeMatcher): ResourceMatcher {
    seq(|m|, i requires 0 <= i < |m| => ResourceReq("", m[i], NoSelector))
  }

  /** A type matcher turned into a resource matcher and back is the same one, whatever
      the intended use. */
  lemma {:induction false} TypeMatcherRoundTrip(m: TypeMatcher, inclusion: bool)
    ensures TypesOf(Requirements(m), inclusion) == m
  {
    if m != [] {
      var z := |m| - 1;
      TypeMatcherRoundTrip(m[..z], inclusion);
      assert Requirements(m)[..z] == Requirements(m[..z]);
    }
  }

  /** Including by a name keeps, of what the requirement includes without it, the resources
      of that name, in order; the same for labels. */
  lemma IncludeByNameAndLabels(rl: seq<Resource>, q: ResourceReq, name: string, eval: LabelMap -> Option<bool>)
    requires name != ""
    ensures FilterResources(rl, [q.(name := name)], false) ==
      Keep(FilterResources(rl, [q.(name := "")], false), (r: Resource) => r.name == name)
    ensures FilterResources(rl, [q.(labels := Selector(eval))], false) ==
      Keep(FilterResources(rl, [q.(labels := NoSelector)], false), (r: Resource) => eval(r.labels) == Some(true))
  {
    NarrowedInclusion(rl, q.(name := ""), q.(name := name), (r: Resource) => r.name == name);
    NarrowedInclusion(rl, q.(labels := NoSelector), q.(labels := Selector(eval)),
                      (r: Resource) => eval(r.labels) == Some(true));
  }

  lemma NarrowedInclusion(rl: seq<Resource>, q: ResourceReq, q': ResourceReq, f: Resource -> bool)
    requires forall r :: ReqMatches(q', r) <==> ReqMatches(q, r) && f(r)
    ensures FilterResources(rl, [q'], false) == Keep(FilterResources(rl, [q], false), f)
  {
    var fq, fq' := (r: Resource) => false != AnyReq([q], r), (r: Resource) => false != AnyReq([q'], r);
    forall i | 0 <= i < |rl|
      ensures fq'(rl[i]) <==> fq(rl[i]) && f(rl[i])
    {
      OneReq(q, rl[i]);
      OneReq(q', rl[i]);
    }
    KeepKeep(rl, fq, f, fq');
  }

  lemma OneReq(q: ResourceReq, r: Resource)
    ensures AnyReq([q], r) <==> ReqMatches(q, r)
  {
    assert [q][0] == q;
  }

  /** One requirement, in terms of the fields of a resource: included exactly if its name,
      its type and its labels are as asked for, and excluded exactly otherwise. */
  lemma OneRequirement(rl: seq<Resource>, q: ResourceReq, r: Resource)
    requires r in rl
    ensures r in FilterResources(rl, [q], false) <==>
      && (q.name != "" ==> r.name == q.name)
      && (q.typ.group != "" ==> r.gvr.group == if q.typ.group == "core" then "" else q.typ.group)
      && (q.typ.version != "" ==> r.gvr.version == q.typ.version)
      && (q.typ.resource != "" ==> r.gvr.resource == q.typ.resource)
      && (q.labels.Selector? ==> q.labels.eval(r.labels) == Some(true))
    ensures r in FilterResources(rl, [q], true) <==> r !in FilterResources(rl, [q], false)
  {
    OneReq(q, r);
    KeepMember(rl, x => false != AnyReq([q], x), r);
    KeepMember(rl, x => true != AnyReq([q], x), r);
  }

  // ---------------------------------------------------------------- maps by type

  /** `Specs.Include` and `Specs.Exclude`: whatever order the keys come in, the result is
      the map restricted to the types that pass. */
  method FilterSpecs<V>(s: map<GVR, V>, order: seq<GVR>, ms: seq<TypeMatcher>, exclude: bool) returns (r: map<GVR, V>)
    requires IsIteration(s, order)
    ensures forall t :: t in r <==> t in s && (Concat(ms) == [] || exclude != AnyType(Concat(ms), t))
    ensures forall t | t in r :: r[t] == s[t]
  {
    var kept := ApplyTypes(order, ms, exclude);
    r := map[];
    forall t
      ensures t in kept <==> t in s && (Concat(ms) == [] || exclude != AnyType(Concat(ms), t))
    {
      KeepMember(order, x => exclude != AnyType(Concat(ms), x), t);
    }
    for i := 0 to |kept|
      invariant forall t :: t in r <==> t in kept[..i]
      invariant forall t | t in r :: t in s && r[t] == s[t]
    {
      assert kept[i] in kept && kept[..i + 1] == kept[..i] + [kept[i]];
      r := r[kept[i] := s[kept[i]]];
    }
    assert kept[..|kept|] == kept;
  }
}

/** The names of objects: `location.Write`, `Read` and `Delete` join the prefix of the
    profile with a path, which cleans the result, and `objectstore` turns that into the
    name of an object or into the prefix of the objects to delete. */
module Paths {

  // ---------------------------------------------------------------- splitting and cleaning

  /** The parts between slashes; never empty. */
  function Elements(s: string): (es: seq<string>)
    ensures |es| > 0
    ensures forall k | 0 <= k < |es| :: '/' !in es[k]
  {
    if s == "" then [""] else Extend(Elements(s[..|s| - 1]), s[|s| - 1])
  }

  function Extend(es: seq<string>, c: char): (r: seq<string>)
    requires |es| > 0
  {
    if c == '/' then es + [""] else WithLast(es, es[|es| - 1] + [c])
  }

  function WithLast(es: seq<string>, e: string): seq<string>
    requires |es| > 0
  {
    es[..|es| - 1] + [e]
  }

  /** One element of a path after the cleaned elements before it. */
  function Enter(rooted: bool, at: seq<string>, e: string): seq<string> {
    if e == "" || e == "." then at
    else if e != ".." then at + [e]
    else if at != [] && at[|at| - 1] != ".." then at[..|at| - 1]
    else if rooted then at
    else at + [e]
  }

  function Walk(rooted: bool, es: seq<string>): seq<string> {
    if es == [] then [] else Enter(rooted, Walk(rooted, es[..|es| - 1]), es[|es| - 1])
  }

  function Slashed(es: seq<string>): string {
    if es == [] then ""
    else if |es| == 1 then es[0]
    else Slashed(es[..|es| - 1]) + "/" + es[|es| - 1]
  }

  predicate Rooted(s: string) {
    s != "" && s[0] == '/'
  }

  /** `filepath.Clean`. */
  function Clean(s: string): string {
    var es := Walk(Rooted(s), Elements(s));
    if Rooted(s) then "/" + Slashed(es) else if es == [] then "." else Slashed(es)
  }

  function Raw(prefix: string, path: string): string {
    if prefix == "" then path else prefix + "/" + path
  }

  /** `filepath.Join` of two elements. */
  function Join(prefix: string, path: string): string {
    if Raw(prefix, path) == "" then "" else Clean(Raw(prefix, path))
  }

  // ---------------------------------------------------------------- object names

  function CloudName(s: string): string {
    if Rooted(s) then s[1..] else s
  }

  /** `absPathName` in the root directory of a bucket. */
  function AbsPathName(s: string): string {
    if s == "" || Rooted(s) then s else "/" + s
  }

  /** The object that `location.Write` and `location.Read` access. */
  function ObjectName(prefix: string, path: string): string {
    CloudName(AbsPathName(Join(prefix, path)))
  }

  /** `location.Delete` removes every object whose name starts with this. */
  function DeletePrefix(prefix: string, path: string): string {
    CloudName(Join("/", Join(prefix, path)))
  }

  // ---------------------------------------------------------------- cleaned elements

  predicate Normal(e: string) {
    e != "" && e != "." && e != ".." && '/' !in e
  }

  /** Cleaned: parents only in front, and none at a root. */
  ghost predicate Tame(rooted: bool, es: seq<string>) {
    && (forall k | 0 <= k < |es| :: Normal(es[k]) || es[k] == "..")
    && (forall k | 0 <= k < |es| :: es[k] == ".." ==> !rooted && forall j | 0 <= j < k :: es[j] == "..")
  }

  lemma {:induction false} WalkIsTame(rooted: bool, es: seq<string>)
    requires forall k | 0 <= k < |es| :: '/' !in es[k]
    ensures Tame(rooted, Walk(rooted, es))
  {
    if es != [] { WalkIsTame(rooted, es[..|es| - 1]); }
  }

  lemma {:induction false} WalkAppend(rooted: bool, es: seq<string>, e: string)
    ensures Walk(rooted, es + [e]) == Enter(rooted, Walk(rooted, es), e)
  {
    assert (es + [e])[..|es|] == es;
  }

  lemma ElementsStep(s: string, c: char)
    ensures Elements(s + [c]) == Extend(Elements(s), c)
  {
    assert (s + [c])[..|s|] == s;
  }

  /** Text without slashes extends the last element. */
  lemma {:induction false} ElementsAppend(s: string, t: string)
    requires '/' !in t
    ensures Elements(s + t) == WithLast(Elements(s), Elements(s)[|Elements(s)| - 1] + t)
  {
    var es := Elements(s);
    if t == "" {
      assert s + t == s;
      assert es[|es| - 1] + t == es[|es| - 1];
      assert WithLast(es, es[|es| - 1]) == es;
    } else {
      var init, c := t[..|t| - 1], t[|t| - 1];
      ElementsAppend(s, init);
      ElementsStep(s + init, c);
      assert s + init + [c] == s + t;
      assert es[|es| - 1] + init + [c] == es[|es| - 1] + t;
    }
  }

  lemma {:induction false} ElementsJoin(s: string, t: string)
    ensures Elements(s + "/" + t) == Elements(s) + Elements(t)
  {
    hide Elements, Extend;
    if t == "" {
      EmptyElements(s);
    } else {
      var init, c := t[..|t| - 1], t[|t| - 1];
      ElementsJoin(s, init);
      ElementsStep(s + "/" + init, c);
      ElementsStep(init, c);
      assert init + [c] == t;
      assert s + "/" + init + [c] == s + "/" + t;
      ExtendRight(Elements(s), Elements(init), c);
    }
  }

  lemma EmptyElements(s: string)
    ensures Elements("") == [""] && Elements(s + "/" + "") == Elements(s) + [""]
  {
    ElementsStep(s, '/');
    assert s + "/" + "" == s + ['/'];
  }

  lemma ExtendRight(es: seq<string>, fs: seq<string>, c: char)
    requires |fs| > 0
    ensures Extend(es + fs, c) == es + Extend(fs, c)
  {
  }

  /** The elements of a text are those it was built from. */
  lemma {:induction false} ElementsOfSlashed(es: seq<string>)
    requires es != [] && forall k | 0 <= k < |es| :: '/' !in es[k]
    ensures Elements(Slashed(es)) == es
  {
    hide Elements;
    var init, last := es[..|es| - 1], es[|es| - 1];
    OneElement(last);
    assert init + [last] == es;
    if |es| > 1 {
      ElementsOfSlashed(init);
      ElementsJoin(Slashed(init), last);
    }
  }

  // ---------------------------------------------------------------- names from elements

  /** The text in front of an element that follows `es`. */
  function Head(es: seq<string>): string {
    if es == [] then "" else Slashed(es) + "/"
  }

  lemma SlashedLast(es: seq<string>, e: string)
    ensures Slashed(es + [e]) == Head(es) + e
  {
    assert (es + [e])[..|es|] == es;
    assert "" + e == e;
  }

  lemma {:induction false} SlashedStarts(es: seq<string>)
    requires es != [] && forall k | 0 <= k < |es| :: es[k] != ""
    ensures es[0] <= Slashed(es) && |Slashed(es)| >= |es[0]|
    ensures |es| > 1 ==> es[0] + "/" <= Slashed(es)
  {
    if |es| > 1 { SlashedStarts(es[..|es| - 1]); }
  }

  /** The name of the object at cleaned elements. */
  function Shown(rooted: bool, es: seq<string>): string {
    if es == [] && !rooted then "." else Slashed(es)
  }

  lemma NameFromElements(prefix: string, path: string)
    requires Raw(prefix, path) != ""
    ensures var raw := Raw(prefix, path); ObjectName(prefix, path) == Shown(Rooted(raw),
      Walk(Rooted(raw), Elements(raw)))
  {
    var raw := Raw(prefix, path);
    var es := Walk(Rooted(raw), Elements(raw));
    WalkIsTame(Rooted(raw), Elements(raw));
    if !Rooted(raw) && es != [] {
      SlashedStarts(es);
      assert es[0][0] in es[0];
    }
  }

  /** Without the parents in front. */
  function Descend(es: seq<string>): (r: seq<string>) {
    if es != [] && es[0] == ".." then Descend(es[1..]) else es
  }

  lemma {:induction false} DescendLast(es: seq<string>, e: string)
    requires e != ".."
    ensures Descend(es + [e]) == Descend(es) + [e]
  {
    if es != [] && es[0] == ".." {
      DescendLast(es[1..], e);
      assert (es + [e])[1..] == es[1..] + [e];
    }
  }

  lemma {:induction false} DescendParents(es: seq<string>)
    requires forall k | 0 <= k < |es| :: es[k] == ".."
    ensures Descend(es) == []
  {
    if es != [] { DescendParents(es[1..]); }
  }

  /** Walking cleaned elements from a root only loses the parents in front. */
  lemma {:induction false} WalkFromRoot(rooted: bool, blanks: seq<string>, es: seq<string>)
    requires Tame(rooted, es) && forall k | 0 <= k < |blanks| :: blanks[k] == ""
    ensures Walk(true, blanks + es) == Descend(es)
  {
    if es == [] {
      if blanks != [] {
        var init := blanks[..|blanks| - 1];
        WalkFromRoot(rooted, init, []);
        WalkAppend(true, init, "");
        assert init + [""] == blanks + es && init + [] == init;
      } else {
        assert blanks + es == [];
      }
    } else {
      var init, e := es[..|es| - 1], es[|es| - 1];
      assert init + [e] == es && blanks + init + [e] == blanks + es;
      WalkFromRoot(rooted, blanks, init);
      WalkAppend(true, blanks + init, e);
      if e == ".." {
        DescendParents(init);
        DescendParents(es);
      } else {
        DescendLast(init, e);
      }
    }
  }

  /** Cleaning a cleaned path again gives its elements, after a blank if it is rooted. */
  lemma ElementsOfClean(rooted: bool, es: seq<string>)
    requires Tame(rooted, es) && es != []
    ensures Elements(if rooted then "/" + Slashed(es) else Slashed(es)) == (if rooted then [""] else []) + es
  {
    ElementsOfSlashed(es);
    ElementsJoin("", Slashed(es));
    assert "" + "/" + Slashed(es) == "/" + Slashed(es);
    assert [] + es == es;
  }

  lemma ElementsUnderRoot(path: string)
    ensures Elements(Raw("/", path)) == ["", ""] + Elements(path)
  {
    ElementsJoin("/", path);
    ElementsJoin("", "");
    assert "" + "/" + "" == "/";
  }

  lemma WalkUnderRoot(rooted: bool, es: seq<string>, path: string)
    requires Tame(rooted, es) && Elements(path) == (if rooted then [""] else []) + es
    ensures Walk(true, Elements(Raw("/", path))) == Descend(es)
  {
    hide Elements, Descend, Walk;
    var blanks := ["", ""] + if rooted then [""] else [];
    ElementsUnderRoot(path);
    WalkFromRoot(rooted, blanks, es);
    assert Elements(Raw("/", path)) == blanks + es;
  }

  lemma JoinUnderRoot(path: string)
    ensures CloudName(Join("/", path)) == Slashed(Walk(true, Elements(Raw("/", path))))
  {
    var raw := Raw("/", path);
    assert raw[0] == '/';
    assert Clean(raw) == "/" + Slashed(Walk(true, Elements(raw)));
  }

  lemma DeletePrefixFromElements(prefix: string, path: string)
    requires Raw(prefix, path) != "" && Walk(Rooted(Raw(prefix, path)), Elements(Raw(prefix, path))) != []
    ensures var raw := Raw(prefix, path);
      DeletePrefix(prefix, path) == Slashed(Descend(Walk(Rooted(raw), Elements(raw))))
  {
    var raw := Raw(prefix, path);
    WalkIsTame(Rooted(raw), Elements(raw));
    ElementsOfClean(Rooted(raw), Walk(Rooted(raw), Elements(raw)));
    WalkUnderRoot(Rooted(raw), Walk(Rooted(raw), Elements(raw)), Join(prefix, path));
    JoinUnderRoot(Join(prefix, path));
  }

  // ---------------------------------------------------------------- laws of cleaning

  lemma ExtendLast(init: seq<string>, e: string, c: char)
    requires c != '/'
    ensures Extend(init + [e], c) == init + [e + [c]]
  {
    var es := init + [e];
    assert es[..|es| - 1] == init && es[|es| - 1] == e;
  }

  lemma SlashedExtend(init: seq<string>, e: string, c: char)
    ensures Slashed(Extend(init + [e], c)) == Slashed(init + [e]) + [c]
  {
    hide Slashed, WithLast;
    if c == '/' {
      SlashedBlank(init + [e]);
    } else {
      hide Extend;
      ExtendLast(init, e, c);
      SlashedLonger(init, e, c);
    }
  }

  lemma SlashedBlank(es: seq<string>)
    requires |es| > 0
    ensures Slashed(es + [""]) == Slashed(es) + ['/']
  {
    hide Slashed;
    SlashedLast(es, "");
    assert Head(es) + "" == Head(es);
  }

  lemma SlashedLonger(es: seq<string>, e: string, c: char)
    ensures Slashed(es + [e + [c]]) == Slashed(es + [e]) + [c]
  {
    hide Slashed, Head;
    SlashedLast(es, e);
    SlashedLast(es, e + [c]);
    assert Head(es) + (e + [c]) == Head(es) + e + [c];
  }

  lemma SlashedMore(es: seq<string>, c: char)
    requires |es| > 0
    ensures Slashed(Extend(es, c)) == Slashed(es) + [c]
  {
    hide Slashed, Extend;
    var init, e := es[..|es| - 1], es[|es| - 1];
    assert init + [e] == es;
    SlashedExtend(init, e, c);
  }

  lemma BlankText()
    ensures Elements("") == [""] && Slashed([""]) == ""
  {
  }

  /** Splitting loses nothing. */
  lemma {:induction false} SlashedOfElements(s: string)
    ensures Slashed(Elements(s)) == s
  {
    hide Extend, Slashed;
    BlankText();
    if s != "" {
      var init, c := s[..|s| - 1], s[|s| - 1];
      SlashedOfElements(init);
      SlashedMore(Elements(init), c);
      assert init + [c] == s;
    }
  }

  lemma {:induction false} WalkTame(rooted: bool, es: seq<string>)
    requires Tame(rooted, es)
    ensures Walk(rooted, es) == es
  {
    if es != [] {
      var init, e := es[..|es| - 1], es[|es| - 1];
      WalkTame(rooted, init);
      assert init + [e] == es;
      if e == ".." && init != [] { assert init[|init| - 1] == es[|init| - 1]; }
    }
  }

  lemma {:induction false} DescendNothing(es: seq<string>)
    requires Tame(true, es)
    ensures Descend(es) == es
  {
  }

  lemma DotElements()
    ensures Elements(".") == ["."] && Elements("/") == ["", ""]
  {
    ElementsJoin("", "");
    assert "" + "/" + "" == "/";
    ElementsStep("", '.');
    assert "" + ['.'] == ".";
  }

  lemma CleanOfNothing()
    ensures Clean(".") == "." && Clean("/") == "/"
  {
    DotElements();
    WalkFromRoot(true, ["", ""], []);
    assert ["", ""] + [] == ["", ""];
    WalkAppend(false, [], ".");
    assert [] + ["."] == ["."];
    assert "/" + "" == "/";
  }

  /** A cleaned path is clean. */
  lemma CleanTwice(s: string)
    ensures Clean(Clean(s)) == Clean(s)
  {
    hide Elements, Walk, Slashed, Descend;
    var rooted, es := Rooted(s), Walk(Rooted(s), Elements(s));
    WalkIsTame(rooted, Elements(s));
    if es == [] {
      CleanOfNothing();
      NoText();
    } else {
      ElementsOfClean(rooted, es);
      WalkCleaned(rooted, es);
    }
  }

  lemma NoText()
    ensures Slashed([]) == "" && "/" + "" == "/"
  {
  }

  lemma WalkCleaned(rooted: bool, es: seq<string>)
    requires Tame(rooted, es) && es != []
    ensures Walk(rooted, (if rooted then [""] else []) + es) == es
    ensures !rooted ==> !Rooted(Slashed(es))
  {
    hide Elements, Walk, Slashed, Descend;
    if rooted {
      WalkFromRoot(true, [""], es);
      DescendNothing(es);
    } else {
      assert [] + es == es;
      WalkTame(false, es);
      StartsRelative(es);
    }
  }

  lemma StartsRelative(es: seq<string>)
    requires Tame(false, es) && es != []
    ensures !Rooted(Slashed(es))
  {
    hide Slashed;
    SlashedStarts(es);
    assert es[0][0] in es[0];
  }

  /** A parent takes back the element before it. */
  lemma ParentCancels(rooted: bool, es: seq<string>, e: string)
    requires Normal(e)
    ensures Walk(rooted, es + [e, ".."]) == Walk(rooted, es)
  {
    WalkAppend(rooted, es, e);
    WalkAppend(rooted, es + [e], "..");
    assert es + [e] + [".."] == es + [e, ".."];
  }

  lemma {:induction false} WalkOn(rooted: bool, es: seq<string>, fs: seq<string>, more: seq<string>)
    requires Walk(rooted, es) == Walk(rooted, fs)
    ensures Walk(rooted, es + more) == Walk(rooted, fs + more)
  {
    hide Walk, Enter;
    if more == [] {
      assert es + more == es && fs + more == fs;
    } else {
      var init, e := more[..|more| - 1], more[|more| - 1];
      WalkOn(rooted, es, fs, init);
      WalkAppend(rooted, es + init, e);
      WalkAppend(rooted, fs + init, e);
      assert es + init + [e] == es + more && fs + init + [e] == fs + more;
    }
  }

  /** Going down and up again leads to the same object. */
  lemma DetourIsNothing(prefix: string, e: string, path: string)
    requires prefix != "" && Normal(e)
    ensures ObjectName(prefix, e + "/../" + path) == ObjectName(prefix, path)
  {
    hide Clean, CloudName, AbsPathName, Join, Shown, Slashed;
    var raw, raw' := Raw(prefix, path), Raw(prefix, e + "/../" + path);
    DetourElements(prefix, e, path);
    assert raw[0] == prefix[0] && raw'[0] == prefix[0];
    var es := Elements(prefix);
    ParentCancels(Rooted(prefix), es, e);
    WalkOn(Rooted(prefix), es + [e, ".."], es, Elements(path));
    NameFromElements(prefix, path);
    NameFromElements(prefix, e + "/../" + path);
  }

  lemma DetourElements(prefix: string, e: string, path: string)
    requires prefix != "" && Normal(e)
    ensures Elements(Raw(prefix, path)) == Elements(prefix) + Elements(path)
    ensures Elements(Raw(prefix, e + "/../" + path)) == Elements(prefix) + [e, ".."] + Elements(path)
  {
    hide Elements;
    ElementsJoin(prefix, path);
    ElementsJoin(prefix, e + "/../" + path);
    DetourFirst(e, path);
  }

  lemma DetourFirst(e: string, path: string)
    requires Normal(e)
    ensures Elements(e + "/../" + path) == [e, ".."] + Elements(path)
  {
    hide Elements;
    ElementsJoin(e, ".." + "/" + path);
    ElementsJoin("..", path);
    OneElement(e);
    OneElement("..");
    assert e + "/" + (".." + "/" + path) == e + "/../" + path;
  }

  lemma OneElement(e: string)
    requires '/' !in e
    ensures Elements(e) == [e]
  {
    ElementsAppend("", e);
    assert "" + e == e;
  }

  /** Parents pile up in front of a relative path, and vanish at a root. */
  lemma ParentsInFront(es: seq<string>)
    requires forall k | 0 <= k < |es| :: Normal(es[k])
    ensures Walk(false, [".."] + es) == [".."] + es
    ensures Walk(true, [".."] + es) == es
  {
    hide Walk;
    var all := [".."] + es;
    assert Tame(false, all) by {
      assert forall k | 0 < k < |all| :: all[k] == es[k - 1];
    }
    WalkTame(false, all);
    WalkFromRoot(false, [], all);
    assert [] + all == all && all[1..] == es;
    DescendNothing(es);
  }
}

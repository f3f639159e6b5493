/** The names of the objects that chronicle accesses: manifest, data and what the delete
    of the previous data removes. */
module ChronicleNames {
  import opened Paths

  // ---------------------------------------------------------------- keys

  function Digit(d: nat): char
    requires d < 10
  {
    "0123456789"[d]
  }

  function Decimal(n: nat): (s: string)
    ensures |s| > 0 && forall k | 0 <= k < |s| :: '0' <= s[k] <= '9'
  {
    if n < 10 then [Digit(n)] else Decimal(n / 10) + [Digit(n % 10)]
  }

  function Itoa(i: int): (s: string)
    ensures |s| > 0 && '0' <= s[|s| - 1] <= '9' && '/' !in s
  {
    if i < 0 then "-" + Decimal(-i) else Decimal(i)
  }

  function Tag(ord: int): (s: string)
    ensures |s| > 1 && '0' <= s[|s| - 1] <= '9' && '/' !in s
  {
    "-" + Itoa(ord)
  }

  /** `fmt.Sprintf("%s-%d", suffix, ord)`. */
  function DataKey(suffix: string, ord: int): (s: string) {
    suffix + Tag(ord)
  }

  lemma {:induction false} DecimalInjective(m: nat, n: nat)
    requires Decimal(m) == Decimal(n)
    ensures m == n
  {
    var s, t := Decimal(m), Decimal(n);
    assert s[|s| - 1] == t[|t| - 1];
    DigitInjective(m % 10, n % 10);
    if m >= 10 && n >= 10 {
      assert s[..|s| - 1] == Decimal(m / 10) && t[..|t| - 1] == Decimal(n / 10);
      DecimalInjective(m / 10, n / 10);
    }
  }

  lemma DigitInjective(d: nat, e: nat)
    requires d < 10 && e < 10 && Digit(d) == Digit(e)
    ensures d == e
  {
  }

  lemma ItoaInjective(i: int, j: int)
    requires Itoa(i) == Itoa(j)
    ensures i == j
  {
    assert (Itoa(i)[0] == '-' <==> i < 0) && (Itoa(j)[0] == '-' <==> j < 0);
    if i < 0 {
      assert Itoa(i)[1..] == Decimal(-i) && Itoa(j)[1..] == Decimal(-j);
      DecimalInjective(-i, -j);
    } else {
      DecimalInjective(i, j);
    }
  }

  /** The number that digits stand for. */
  function NumberOf(s: string): int {
    if s == "" then 0 else 10 * NumberOf(s[..|s| - 1]) + (s[|s| - 1] as int - '0' as int)
  }

  /** `Decimal` is the decimal form, without leading zeros. */
  lemma {:induction false} DecimalIsDecimal(n: nat)
    ensures NumberOf(Decimal(n)) == n && (Decimal(n)[0] == '0' ==> n == 0)
  {
    var s := Decimal(n);
    assert Digit(n % 10) as int == '0' as int + n % 10;
    if n >= 10 {
      DecimalIsDecimal(n / 10);
      assert s[..|s| - 1] == Decimal(n / 10);
    } else {
      assert s[..0] == "";
    }
  }

  /** A decimal number that starts with another one is at least ten times as large. */
  lemma {:induction false} DecimalPrefix(m: nat, n: nat)
    requires Decimal(m) <= Decimal(n)
    ensures m == n || (n >= 10 && n >= 10 * m && Decimal(m) <= Decimal(n / 10))
  {
    var s, t := Decimal(m), Decimal(n);
    if |s| == |t| {
      assert s == t;
      DecimalInjective(m, n);
    } else if n >= 10 {
      assert t[..|t| - 1] == Decimal(n / 10);
      assert Decimal(m) <= Decimal(n / 10);
      DecimalPrefix(m, n / 10);
    }
  }

  /** The text of an ordinal does not start with that of the ordinal before it. */
  lemma PreviousIsNoPrefix(ord: nat)
    ensures !(Itoa(ord - 1) <= Itoa(ord))
  {
    if ord >= 1 && Itoa(ord - 1) <= Itoa(ord) {
      DecimalPrefix(ord - 1, ord);
    } else if ord == 0 {
      assert Itoa(-1)[0] == '-' && Itoa(0)[0] == '0';
    }
  }

  // ---------------------------------------------------------------- the objects

  /** The prefix of the profile's location and the artifact path. */
  datatype Place = Place(prefix: string, suffix: string)

  function ManifestName(p: Place): string {
    ObjectName(p.prefix, p.suffix)
  }

  function DataName(p: Place, ord: int): string {
    ObjectName(p.prefix, DataKey(p.suffix, ord))
  }

  /** What a read with an empty path accesses. */
  function RootName(p: Place): string {
    ObjectName(p.prefix, "")
  }

  /** The delete of the data of `ord` removes every object whose name starts with this. */
  function Doomed(p: Place, ord: int): string {
    DeletePrefix(p.prefix, DataKey(p.suffix, ord))
  }

  // ---------------------------------------------------------------- names of data

  function Given(p: Place): string {
    Raw(p.prefix, p.suffix)
  }

  /** The cleaned directory of the manifest and the data. */
  function Above(p: Place): seq<string> {
    var es := Elements(Given(p));
    Walk(Rooted(Given(p)), es[..|es| - 1])
  }

  function Base(p: Place): string {
    var es := Elements(Given(p));
    es[|es| - 1]
  }

  /** The path leads out of the bucket, as `../db` does without a prefix. */
  predicate Climbs(p: Place) {
    Above(p) != [] && Above(p)[0] == ".."
  }

  /** What all data names start with. */
  function Stem(p: Place): string {
    Head(Above(p)) + Base(p)
  }

  function DoomedStem(p: Place): string {
    Head(Descend(Above(p))) + Base(p)
  }

  lemma AboveIsTame(p: Place)
    ensures Tame(Rooted(Given(p)), Above(p)) && '/' !in Base(p)
  {
    var es := Elements(Given(p));
    WalkIsTame(Rooted(Given(p)), es[..|es| - 1]);
  }

  /** Text that may follow a path and make its last element a normal one. */
  predicate IsTag(t: string) {
    |t| > 0 && '/' !in t && t[|t| - 1] != '.'
  }

  lemma TaggedIsNormal(e: string, t: string)
    requires IsTag(t) && '/' !in e
    ensures Normal(e + t)
  {
    assert (e + t)[|e + t| - 1] == t[|t| - 1];
  }

  lemma TaggedElements(p: Place, t: string)
    requires IsTag(t)
    ensures Walk(Rooted(Given(p)), Elements(Given(p) + t)) == Above(p) + [Base(p) + t]
  {
    var es := Elements(Given(p));
    ElementsAppend(Given(p), t);
    TaggedIsNormal(Base(p), t);
    WalkAppend(Rooted(Given(p)), es[..|es| - 1], Base(p) + t);
  }

  lemma TaggedRaw(p: Place, t: string)
    requires IsTag(t)
    ensures Raw(p.prefix, p.suffix + t) == Given(p) + t && Given(p) + t != ""
    ensures Rooted(Given(p) + t) == Rooted(Given(p))
  {
    assert p.prefix + "/" + (p.suffix + t) == p.prefix + "/" + p.suffix + t;
    if Given(p) != "" {
      assert (Given(p) + t)[0] == Given(p)[0];
    } else {
      assert (Given(p) + t)[0] == t[0] && t[0] in t;
    }
  }

  lemma Regroup(a: string, b: string, c: string)
    ensures a + (b + c) == a + b + c
  {
  }

  /** The name of an object whose path cleans to `d` and `e`. */
  lemma NameAt(prefix: string, path: string, rooted: bool, raw: string, d: seq<string>, e: string)
    requires raw == Raw(prefix, path) && raw != "" && rooted == Rooted(raw) && Walk(rooted, Elements(raw)) == d + [e]
    ensures ObjectName(prefix, path) == Head(d) + e
    ensures e != ".." ==> DeletePrefix(prefix, path) == Head(Descend(d)) + e
  {
    NameFromElements(prefix, path);
    SlashedLast(d, e);
    if e != ".." {
      DeletePrefixFromElements(prefix, path);
      DescendLast(d, e);
      SlashedLast(Descend(d), e);
    }
  }

  lemma TaggedName(p: Place, t: string)
    requires IsTag(t)
    ensures ObjectName(p.prefix, p.suffix + t) == Stem(p) + t
    ensures DeletePrefix(p.prefix, p.suffix + t) == DoomedStem(p) + t
  {
    TaggedRaw(p, t);
    TaggedElements(p, t);
    AboveIsTame(p);
    TaggedIsNormal(Base(p), t);
    NameAt(p.prefix, p.suffix + t, Rooted(Given(p)), Given(p) + t, Above(p), Base(p) + t);
    Regroup(Head(Above(p)), Base(p), t);
    Regroup(Head(Descend(Above(p))), Base(p), t);
  }

  /** Data names share a stem and end in the ordinal. */
  lemma DataNameForm(p: Place, ord: int)
    ensures DataName(p, ord) == Stem(p) + Tag(ord)
  {
    TaggedName(p, Tag(ord));
  }

  lemma DoomedForm(p: Place, ord: int)
    ensures Doomed(p, ord) == DoomedStem(p) + Tag(ord)
  {
    TaggedName(p, Tag(ord));
  }

  /** Different ordinals have different data names. */
  lemma DataNamesDiffer(p: Place, i: int, j: int)
    ensures DataName(p, i) == DataName(p, j) <==> i == j
  {
    hide ObjectName, Stem;
    DataNameForm(p, i);
    DataNameForm(p, j);
    SamePrefix(Stem(p), Tag(i), Tag(j));
    assert Tag(i)[1..] == Itoa(i) && Tag(j)[1..] == Itoa(j);
    if Itoa(i) == Itoa(j) { ItoaInjective(i, j); }
  }

  lemma SamePrefix(a: string, s: string, t: string)
    ensures a + s <= a + t <==> s <= t
    ensures a + s == a + t <==> s == t
  {
    assert (a + s)[|a|..] == s && (a + t)[|a|..] == t;
    if s <= t { assert a + t == a + s + t[|s|..]; }
    if a + s <= a + t { assert s == t[..|s|]; }
  }

  // ---------------------------------------------------------------- the name of the manifest

  lemma ManifestForm(p: Place)
    requires Given(p) != ""
    ensures ManifestName(p) == Shown(Rooted(Given(p)), Enter(Rooted(Given(p)), Above(p), Base(p)))
  {
    NameFromElements(p.prefix, p.suffix);
  }

  lemma EnteredIsShort(rooted: bool, d: seq<string>, e: string)
    ensures |Shown(rooted, Enter(rooted, d, e))| <= |Head(d)| + |e| + 1
  {
    SlashedLast(d, e);
    if d != [] {
      SlashedLast(d[..|d| - 1], d[|d| - 1]);
      assert d[..|d| - 1] + [d[|d| - 1]] == d;
    }
  }

  /** The manifest is no data object: its name is shorter than theirs. */
  lemma ManifestIsShorter(p: Place, ord: int)
    ensures |ManifestName(p)| < |DataName(p, ord)|
  {
    DataNameForm(p, ord);
    if Given(p) != "" {
      ManifestForm(p);
      EnteredIsShort(Rooted(Given(p)), Above(p), Base(p));
    }
  }

  // ---------------------------------------------------------------- what the delete removes

  /** The name leads out of the bucket. */
  predicate LeadsUp(s: string) {
    |s| >= 2 && s[..2] == ".." && (|s| == 2 || s[2] == '/')
  }

  lemma LeadsUpFromElements(es: seq<string>)
    requires Tame(false, es) && es != []
    ensures LeadsUp(Slashed(es)) <==> es[0] == ".."
  {
    var s := Slashed(es);
    SlashedStarts(es);
    if |es| > 1 {
      assert (es[0] + "/")[|es[0]|] == '/';
      assert forall k | 0 <= k < |es[0]| :: s[k] == es[0][k] && es[0][k] in es[0];
    }
  }

  lemma {:induction false} DescendIsTame(es: seq<string>)
    requires Tame(false, es)
    ensures Tame(false, Descend(es)) && (Descend(es) != [] ==> Descend(es)[0] != "..")
  {
    if es != [] && es[0] == ".." { DescendIsTame(es[1..]); }
  }

  /** Two cleaned names, of which only the second leads up, have no prefix in common. */
  lemma OnlyOneLeadsUp(s: string, t: string)
    requires |s| >= 2 && s != ".." && !LeadsUp(s) && LeadsUp(t)
    ensures !(s <= t)
  {
  }

  lemma DoomedStaysInside(p: Place, ord: int)
    requires Climbs(p)
    ensures |Doomed(p, ord)| >= 2 && Doomed(p, ord) != ".." && !LeadsUp(Doomed(p, ord))
  {
    hide DeletePrefix, Elements, Walk, LeadsUp;
    var d, e := Descend(Above(p)), Base(p) + Tag(ord);
    DoomedForm(p, ord);
    Regroup(Head(d), Base(p), Tag(ord));
    AboveIsTame(p);
    assert Above(p)[0] == "..";
    DescendIsTame(Above(p));
    TaggedIsNormal(Base(p), Tag(ord));
    SlashedLast(d, e);
    LeadsUpFromElements(d + [e]);
    var s := Doomed(p, ord);
    assert s[|s| - 1] == Tag(ord)[|Tag(ord)| - 1];
  }

  lemma UpStaysUp(d: seq<string>, e: string)
    requires Tame(false, d) && d != [] && d[0] == ".." && '/' !in e
    ensures Normal(e) ==> LeadsUp(Head(d) + e)
    ensures LeadsUp(Shown(false, Enter(false, d, e)))
  {
    if Normal(e) {
      SlashedLast(d, e);
      LeadsUpFromElements(d + [e]);
    }
    var es := Enter(false, d, e);
    assert es != [] && es[0] == "..";
    LeadsUpFromElements(es);
  }

  lemma ClimbingDataLeadsUp(p: Place, ord: int)
    requires Climbs(p)
    ensures LeadsUp(DataName(p, ord))
  {
    AboveIsTame(p);
    assert Above(p)[0] == "..";
    TaggedIsNormal(Base(p), Tag(ord));
    UpStaysUp(Above(p), Base(p) + Tag(ord));
    DataNameForm(p, ord);
    Regroup(Head(Above(p)), Base(p), Tag(ord));
  }

  lemma ClimbingManifestLeadsUp(p: Place)
    requires Climbs(p)
    ensures LeadsUp(ManifestName(p))
  {
    AboveIsTame(p);
    assert Above(p)[0] == "..";
    assert Given(p) != "";
    ManifestForm(p);
    UpStaysUp(Above(p), Base(p));
  }

  lemma StaysPut(p: Place)
    requires !Climbs(p)
    ensures DoomedStem(p) == Stem(p)
  {
  }

  /** The delete of any data leaves the manifest alone. */
  lemma DeleteSparesManifest(p: Place, ord: int)
    ensures !(Doomed(p, ord) <= ManifestName(p))
  {
    if Climbs(p) {
      DoomedStaysInside(p, ord);
      ClimbingManifestLeadsUp(p);
      OnlyOneLeadsUp(Doomed(p, ord), ManifestName(p));
    } else {
      DoomedForm(p, ord);
      DataNameForm(p, ord);
      ManifestIsShorter(p, ord);
    }
  }

  /** The delete of the previous data leaves the current data alone. */
  lemma DeleteSparesCurrent(p: Place, ord: nat)
    ensures !(Doomed(p, ord - 1) <= DataName(p, ord))
  {
    if Climbs(p) {
      DeleteMisses(p, ord - 1, ord);
    } else {
      DoomedForm(p, ord - 1);
      DataNameForm(p, ord);
      SamePrefix(Stem(p), Tag(ord - 1), Tag(ord));
      SamePrefix("-", Itoa(ord - 1), Itoa(ord));
      PreviousIsNoPrefix(ord);
    }
  }

  /** If the path leads out of the bucket, no delete finds any data. */
  lemma DeleteMisses(p: Place, i: int, j: int)
    requires Climbs(p)
    ensures !(Doomed(p, i) <= DataName(p, j))
  {
    DoomedStaysInside(p, i);
    ClimbingDataLeadsUp(p, j);
    OnlyOneLeadsUp(Doomed(p, i), DataName(p, j));
  }

  /** The delete of data removes that data exactly if the path stays in the bucket. */
  lemma DeleteHitsExactlyWhen(p: Place, ord: int)
    ensures Doomed(p, ord) <= DataName(p, ord) <==> !Climbs(p)
  {
    if Climbs(p) {
      DeleteMisses(p, ord, ord);
    } else {
      DoomedForm(p, ord);
      DataNameForm(p, ord);
    }
  }

  // ---------------------------------------------------------------- names under the prefix itself

  lemma {:induction false} WalkBlanks(rooted: bool, es: seq<string>, blanks: seq<string>)
    requires forall k | 0 <= k < |blanks| :: blanks[k] == "" || blanks[k] == "."
    ensures Walk(rooted, es + blanks) == Walk(rooted, es)
  {
    if blanks == [] {
      assert es + blanks == es;
    } else {
      var init := blanks[..|blanks| - 1];
      WalkBlanks(rooted, es, init);
      WalkAppend(rooted, es + init, blanks[|blanks| - 1]);
      assert es + init + [blanks[|blanks| - 1]] == es + blanks;
    }
  }

  lemma BlankNames(prefix: string, path: string)
    requires prefix != "" && forall k | 0 <= k < |Elements(path)| :: Elements(path)[k] == "" || Elements(path)[k] == "."
    ensures ObjectName(prefix, path) == Shown(Rooted(prefix), Walk(Rooted(prefix), Elements(prefix)))
  {
    var raw := Raw(prefix, path);
    assert raw[0] == prefix[0];
    NameFromElements(prefix, path);
    ElementsJoin(prefix, path);
    WalkBlanks(Rooted(prefix), Elements(prefix), Elements(path));
  }

  lemma DotWithoutPrefix()
    ensures ObjectName("", "/") == "" && ObjectName("", ".") == "." && ObjectName("", "") == ""
  {
    DotElements();
    NameFromElements("", ".");
    NameFromElements("", "/");
    WalkBlanks(false, [], ["."]);
    WalkBlanks(true, [], ["", ""]);
    assert [] + ["."] == ["."] && [] + ["", ""] == ["", ""];
  }

  /** Under a prefix, the paths "." and "/" name the same object as the empty one; without
      a prefix only "/" does. */
  lemma DotNamesTheRoot(prefix: string)
    ensures ObjectName(prefix, "/") == ObjectName(prefix, "")
    ensures ObjectName(prefix, ".") == ObjectName(prefix, "") <==> prefix != ""
  {
    if prefix == "" {
      DotWithoutPrefix();
    } else {
      DotElements();
      BlankNames(prefix, "");
      BlankNames(prefix, ".");
      BlankNames(prefix, "/");
    }
  }

  /** A path such as `backups/db`: no blank, dot or parent in it. */
  ghost predicate Plain(path: string) {
    forall k | 0 <= k < |Elements(path)| :: Normal(Elements(path)[k])
  }

  lemma {:induction false} WalkNormal(rooted: bool, es: seq<string>, more: seq<string>)
    requires forall k | 0 <= k < |more| :: Normal(more[k])
    ensures Walk(rooted, es + more) == Walk(rooted, es) + more
  {
    if more == [] {
      assert es + more == es;
    } else {
      var init := more[..|more| - 1];
      WalkNormal(rooted, es, init);
      WalkAppend(rooted, es + init, more[|more| - 1]);
      assert es + init + [more[|more| - 1]] == es + more;
    }
  }

  lemma {:induction false} SlashedGrows(es: seq<string>, more: seq<string>)
    requires more != [] && forall k | 0 <= k < |more| :: more[k] != ""
    ensures |Slashed(es + more)| > |Slashed(es)|
  {
    var init, e := more[..|more| - 1], more[|more| - 1];
    SlashedLast(es + init, e);
    assert es + init + [e] == es + more;
    if init != [] {
      SlashedGrows(es, init);
    } else {
      assert es + init == es;
    }
  }

  lemma PlainManifest(p: Place)
    requires Plain(p.suffix)
    ensures Given(p) != ""
    ensures p.prefix == "" ==> ManifestName(p) == Slashed(Elements(p.suffix)) && |ManifestName(p)| > 0
    ensures p.prefix != "" ==>
      var d := Walk(Rooted(p.prefix), Elements(p.prefix)); ManifestName(p) == Slashed(d + Elements(p.suffix))
  {
    var es, raw := Elements(p.suffix), Given(p);
    assert Normal(es[0]);
    NameFromElements(p.prefix, p.suffix);
    if p.prefix == "" {
      WalkNormal(Rooted(raw), [], es);
      assert [] + es == es;
      SlashedGrows([], es);
    } else {
      ElementsJoin(p.prefix, p.suffix);
      assert raw[0] == p.prefix[0];
      WalkNormal(Rooted(p.prefix), Elements(p.prefix), es);
    }
  }

  lemma RootForm(p: Place)
    ensures RootName(p) ==
      if p.prefix == "" then "" else Shown(Rooted(p.prefix), Walk(Rooted(p.prefix), Elements(p.prefix)))
  {
    if p.prefix != "" { BlankNames(p.prefix, ""); }
  }

  lemma NormalIsNoDot(es: seq<string>)
    requires es != [] && forall k | 0 <= k < |es| :: Normal(es[k])
    ensures Slashed(es) != "."
  {
    ElementsOfSlashed(es);
    DotElements();
    assert Normal(es[0]);
  }

  /** With a plain path, the empty path names neither the manifest nor data. */
  lemma PlainPathsAreApart(p: Place, ord: int)
    requires Plain(p.suffix)
    ensures ManifestName(p) != RootName(p) && DataName(p, ord) != RootName(p)
  {
    hide ObjectName, Elements, Walk, Stem;
    RootForm(p);
    PlainManifest(p);
    ManifestIsShorter(p, ord);
    DataNameForm(p, ord);
    if p.prefix != "" {
      var d, es := Walk(Rooted(p.prefix), Elements(p.prefix)), Elements(p.suffix);
      SlashedGrows(d, es);
      assert d == [] ==> d + es == es;
      NormalIsNoDot(es);
    }
  }

  /** The delete of `db-1` also removes `db-10`. */
  lemma DeleteReachesFurther(p: Place, m: nat, n: nat)
    requires !Climbs(p)
    ensures Doomed(p, m) <= DataName(p, n) <==> Decimal(m) <= Decimal(n)
  {
    DoomedForm(p, m);
    DataNameForm(p, n);
    StaysPut(p);
    SamePrefix(Stem(p), Tag(m), Tag(n));
    SamePrefix("-", Itoa(m), Itoa(n));
  }
}

/** The list of tests that the Polygon converter writes, and the problem a builder makes of it. */
module PolygonConverters {
  import opened Prelude
  import opened VerdictBuilders
  import opened TestTrees
  import opened ProblemBuilders

  /** A testset element of a Polygon package: its name and its test-count. */
  datatype Source = Source(name: string, count: nat)

  const TESTS := "tests"
  const COMPILATION := "compilation"

  function Digit(d: nat): char
    requires d < 10
  {
    "0123456789"[d]
  }

  /** std::to_string */
  function Decimal(n: nat): (r: string)
    ensures |r| > 0 && r[|r| - 1] == Digit(n % 10)
  {
    if n < 10 then [Digit(n)] else Decimal(n / 10) + [Digit(n % 10)]
  }

  function TestName(testset: string, num: nat): Name {
    if testset == TESTS then Name(Decimal(num)) else Name(testset + Decimal(num))
  }

  function TestNames(testset: string, n: nat): seq<Name> {
    seq(n, (k: nat) => TestName(testset, k + 1))
  }

  function Singles(testset: string, n: nat): seq<Def> {
    seq(n, (k: nat) => Def(TestName(testset, k + 1), SingleKind))
  }

  function TestsetDef(t: Source): Def {
    Def(Name(t.name), TestsetKind(Some(Min), TestNames(t.name, t.count)))
  }

  function Blocks(ts: seq<Source>): seq<Def> {
    if ts == [] then []
    else
      var t := ts[|ts| - 1];
      Blocks(ts[..|ts| - 1]) + Singles(t.name, t.count) + [TestsetDef(t)]
  }

  function Emitted(ts: seq<Source>): seq<Def> {
    Blocks(ts) + [Def(Name(COMPILATION), CompilationKind(Name(TESTS))), Def(MAIN, SyncResultKind(Name(COMPILATION)))]
  }

  lemma {:induction false} OneMore(testset: string, n: nat)
    ensures Singles(testset, n + 1) == Singles(testset, n) + [Def(TestName(testset, n + 1), SingleKind)]
    ensures TestNames(testset, n + 1) == TestNames(testset, n) + [TestName(testset, n + 1)]
  {
  }

  method ConvertICPCProblemPackage(ts: seq<Source>) returns (defs: seq<Def>)
    ensures defs == Emitted(ts)
  {
    defs := [];
    for i := 0 to |ts|
      invariant defs == Blocks(ts[..i])
    {
      var t := ts[i];
      assert ts[..i + 1][..i] == ts[..i];
      ghost var front := defs;
      assert Singles(t.name, 0) == [] && TestNames(t.name, 0) == [];
      for num := 1 to t.count + 1
        invariant defs == front + Singles(t.name, num - 1)
      {
        OneMore(t.name, num - 1);
        hide *;
        defs := defs + [Def(TestName(t.name, num), SingleKind)];
      }
      var children := [];
      for num := 1 to t.count + 1
        invariant children == TestNames(t.name, num - 1)
      {
        OneMore(t.name, num - 1);
        hide *;
        children := children + [TestName(t.name, num)];
      }
      defs := defs + [Def(Name(t.name), TestsetKind(Some(Min), children))];
    }
    assert ts[..|ts|] == ts;
    defs := defs + [Def(Name(COMPILATION), CompilationKind(Name(TESTS)))];
    defs := defs + [Def(MAIN, SyncResultKind(Name(COMPILATION)))];
  }

  // ----- Acceptance -----

  lemma {:induction false} FitsInLonger(a: seq<Def>, b: seq<Def>, i: nat)
    requires i < |a| && Fits(a, i)
    ensures Fits(a + b, i)
  {
    forall c | c in Children(a[i].kind) ensures Listed(a + b, i, c) {
      assert Listed(a, i, c);
      var j: nat :| j < i && a[j].name == c;
      assert (a + b)[j].name == c;
    }
  }

  /** The tests a converted testset names stand directly before it. */
  lemma {:induction false} BlockFits(before: seq<Def>, t: Source, i: nat)
    requires |before| <= i < |before| + t.count + 1
    ensures Fits(before + Singles(t.name, t.count) + [TestsetDef(t)], i)
  {
    var defs := before + Singles(t.name, t.count) + [TestsetDef(t)];
    if i == |before| + t.count {
      assert Children(defs[i].kind) == TestNames(t.name, t.count);
      forall c | c in TestNames(t.name, t.count) ensures Listed(defs, i, c) {
        var k: nat :| k < t.count && c == TestNames(t.name, t.count)[k];
        assert defs[|before| + k].name == c;
        assert |Decimal(k + 1)| > 0;
        hide Decimal;
      }
    } else {
      assert defs[i].kind == SingleKind;
    }
  }

  lemma {:induction false} BlocksFit(ts: seq<Source>, i: nat)
    requires i < |Blocks(ts)|
    ensures Fits(Blocks(ts), i)
    decreases |ts|
  {
    var t := ts[|ts| - 1];
    var front := Blocks(ts[..|ts| - 1]);
    if i < |front| {
      BlocksFit(ts[..|ts| - 1], i);
      FitsInLonger(front, Singles(t.name, t.count) + [TestsetDef(t)], i);
      assert Blocks(ts) == front + (Singles(t.name, t.count) + [TestsetDef(t)]);
    } else {
      BlockFits(front, t, i);
    }
  }

  predicate NoNumeral(name: string) {
    |name| > 0 && forall d :: 0 <= d < 10 ==> name[|name| - 1] != Digit(d)
  }

  ghost predicate Called(defs: seq<Def>, name: string) {
    exists j :: 0 <= j < |defs| && defs[j].name.text == name
  }

  lemma {:induction false} CalledInEither(a: seq<Def>, b: seq<Def>, name: string)
    ensures Called(a + b, name) <==> Called(a, name) || Called(b, name)
  {
    var c := a + b;
    if j :| 0 <= j < |a| && a[j].name.text == name {
      assert c[j].name.text == name;
    }
    if j :| 0 <= j < |b| && b[j].name.text == name {
      assert c[|a| + j].name.text == name;
    }
  }

  lemma {:induction false} SinglesNotCalled(testset: string, n: nat, name: string)
    requires NoNumeral(name)
    ensures !Called(Singles(testset, n), name)
  {
    forall j: nat | j < n ensures Singles(testset, n)[j].name.text != name {
      var full, d := TestName(testset, j + 1).text, Decimal(j + 1);
      assert full[|full| - 1] == d[|d| - 1];
    }
  }

  /** A name that does not end in a digit can only be the name of a testset. */
  lemma {:induction false} OnlyTestsetsNamed(ts: seq<Source>, name: string)
    requires NoNumeral(name)
    ensures Called(Blocks(ts), name) <==> exists t :: t in ts && t.name == name
    decreases |ts|
  {
    if ts != [] {
      var t, rest := ts[|ts| - 1], ts[..|ts| - 1];
      OnlyTestsetsNamed(rest, name);
      CalledInEither(Blocks(rest) + Singles(t.name, t.count), [TestsetDef(t)], name);
      CalledInEither(Blocks(rest), Singles(t.name, t.count), name);
      SinglesNotCalled(t.name, t.count, name);
      assert Called([TestsetDef(t)], name) <==> t.name == name by {
        assert [TestsetDef(t)][0].name.text == t.name;
      }
      assert ts == rest + [t];
      hide Called, NoNumeral;
    }
  }

  /**
   * The builder accepts the converted package exactly when it has a testset called "tests" (or one called
   * "compilation", which then stands in for the compilation test), whatever other names collide.
   */
  lemma {:induction false} ConvertedAcceptedIff(ts: seq<Source>)
    ensures WellOrdered(Emitted(ts), |Emitted(ts)|) <==>
            exists t :: t in ts && (t.name == TESTS || t.name == COMPILATION)
  {
    var defs, m := Emitted(ts), |Blocks(ts)|;
    OnlyTestsetsNamed(ts, TESTS);
    OnlyTestsetsNamed(ts, COMPILATION);
    forall i | 0 <= i < m ensures Fits(defs, i) {
      BlocksFit(ts, i);
      FitsInLonger(Blocks(ts), defs[m..], i);
      assert defs == Blocks(ts) + defs[m..];
    }
    assert forall j :: 0 <= j < m ==> defs[j] == Blocks(ts)[j];
    assert defs[m].name == Name(COMPILATION);
    assert First(defs, m) <==> !exists t :: t in ts && t.name == COMPILATION;
    assert Children(defs[m].kind) == [Name(TESTS)];
    assert Fits(defs, m) <==> Listed(defs, m, Name(TESTS));
    if j :| 0 <= j < m && Blocks(ts)[j].name.text == TESTS {
      assert defs[j].name == Name(TESTS);
    }
    assert Fits(defs, m) <==> exists t :: t in ts && t.name == TESTS;
    assert Listed(defs, m + 1, Name(COMPILATION));
    assert Children(defs[m + 1].kind) == [Name(COMPILATION)];
    assert Fits(defs, m + 1);
    assert WellOrdered(defs, m + 2) <==> (First(defs, m) ==> Fits(defs, m));
  }

  // ----- The problem that is built -----

  /** Where the first testset with this name is. */
  function FirstTestset(ts: seq<Source>, name: string): Option<nat> {
    FirstIndex(ts, (t: Source) => t.name == name)
  }

  /** The first definition called num is that of a single test, for each num up to n. */
  ghost predicate NumberedAreSingle(defs: seq<Def>, n: nat) {
    forall num: nat :: 1 <= num <= n ==> Config(defs, Name(Decimal(num))) == SingleKind
  }

  /** One of the testsets before `g` has a test called `name`. */
  ghost predicate TestBefore(ts: seq<Source>, g: nat, name: Name)
    requires g <= |ts|
  {
    exists h, k :: 0 <= h < g && 1 <= k <= ts[h].count && TestName(ts[h].name, k) == name
  }

  /** A testset before `f` that is called like one of the tests of `f` has a test with that name before it. */
  ghost predicate TestsFirst(ts: seq<Source>, f: nat)
    requires f < |ts|
  {
    forall g, num :: 0 <= g < f && 1 <= num <= ts[f].count && ts[g].name == Decimal(num) ==>
                       TestBefore(ts, g, Name(Decimal(num)))
  }

  /**
   * No testset of the package takes the name of a test the converter adds, and none takes that of a test of "tests"
   * first.
   */
  ghost predicate Clean(ts: seq<Source>) {
    && FirstTestset(ts, "main").None? && FirstTestset(ts, COMPILATION).None?
    && match FirstTestset(ts, TESTS)
       case Some(f) => TestsFirst(ts, f)
       case None => false
  }

  /** The first definition called `name`, as a position in the blocks up to and including testset `f`. */
  lemma {:induction false} BlocksOf(ts: seq<Source>, f: nat)
    requires f < |ts|
    ensures var front := Blocks(ts[..f]);
            Blocks(ts[..f + 1]) == front + Singles(ts[f].name, ts[f].count) + [TestsetDef(ts[f])]
            && |Blocks(ts[..f + 1])| <= |Blocks(ts)|
            && forall j :: 0 <= j < |Blocks(ts[..f + 1])| ==> Blocks(ts)[j] == Blocks(ts[..f + 1])[j]
    decreases |ts|
  {
    assert ts[..f + 1][..f] == ts[..f];
    if f + 1 == |ts| {
      assert ts[..f + 1] == ts;
    } else {
      var rest := ts[..|ts| - 1];
      BlocksOf(rest, f);
      assert rest[..f + 1] == ts[..f + 1] && rest[..f] == ts[..f];
    }
  }

  /** A definition before those of testset `f` is a testset only if one of the testsets before `f` has its name. */
  lemma {:induction false} KindInBlocks(ts: seq<Source>, i: nat)
    requires i < |Blocks(ts)|
    ensures Blocks(ts)[i].kind.SingleKind? || Blocks(ts)[i].kind.TestsetKind?
    ensures Blocks(ts)[i].kind.SingleKind? || exists g :: 0 <= g < |ts| && ts[g].name == Blocks(ts)[i].name.text
    decreases |ts|
  {
    var front := Blocks(ts[..|ts| - 1]);
    if i < |front| {
      KindInBlocks(ts[..|ts| - 1], i);
    }
  }

  /** No definition before the first testset called "tests" has that name. */
  lemma {:induction false} NotEarlier(ts: seq<Source>, f: nat, j: nat)
    requires FirstTestset(ts, TESTS) == Some(f) && j < |Blocks(ts[..f])| + ts[f].count && j < |Emitted(ts)|
    ensures Emitted(ts)[j].name != Name(TESTS)
  {
    BlocksOf(ts, f);
    OnlyTestsetsNamed(ts[..f], TESTS);
    var front := Blocks(ts[..f]);
    assert Emitted(ts)[j] == Blocks(ts)[j] == Blocks(ts[..f + 1])[j];
    if j < |front| {
      assert Emitted(ts)[j] == front[j];
    } else {
      assert Emitted(ts)[j].name == Name(Decimal(j - |front| + 1));
      NotANumeral(TESTS, j - |front| + 1);
    }
  }

  lemma {:induction false} TestsetIsFirst(ts: seq<Source>, f: nat)
    requires FirstTestset(ts, TESTS) == Some(f)
    ensures Config(Emitted(ts), Name(TESTS)) == TestsetKind(Some(Min), TestNames(TESTS, ts[f].count))
  {
    var at := |Blocks(ts[..f])| + ts[f].count;
    BlocksOf(ts, f);
    assert Emitted(ts)[at] == Blocks(ts)[at] == TestsetDef(ts[f]);
    forall j: nat | j < at ensures Emitted(ts)[j].name != Name(TESTS) {
      NotEarlier(ts, f, j);
    }
    hide Emitted, Blocks;
    assert FirstAt(Emitted(ts), Name(TESTS)) == Some(at);
  }

  lemma {:induction false} NotANumeral(name: string, n: nat)
    requires NoNumeral(name)
    ensures name != Decimal(n)
  {
    assert Decimal(n)[|Decimal(n)| - 1] == Digit(n % 10);
  }

  /** Definition `i` is a test of testset `g`, or `g` itself. */
  ghost predicate In(ts: seq<Source>, i: nat, g: nat)
    requires i < |Blocks(ts)| && g < |ts|
  {
    var k := i - |Blocks(ts[..g])|;
    && 0 <= k <= ts[g].count
    && Blocks(ts)[i] == if k < ts[g].count then Def(TestName(ts[g].name, k + 1), SingleKind) else TestsetDef(ts[g])
  }

  lemma {:induction false} Locate(ts: seq<Source>, i: nat) returns (g: nat)
    requires i < |Blocks(ts)|
    ensures g < |ts| && In(ts, i, g)
    decreases |ts|
  {
    var rest := ts[..|ts| - 1];
    var front := Blocks(rest);
    if i < |front| {
      g := Locate(rest, i);
      assert rest[..g] == ts[..g];
    } else {
      g := |ts| - 1;
    }
  }

  /** Where the definitions of testset `g` are. */
  lemma {:induction false} Placed(ts: seq<Source>, g: nat, k: nat)
    requires g < |ts| && k <= ts[g].count
    ensures |Blocks(ts[..g])| + k < |Blocks(ts)| && In(ts, |Blocks(ts[..g])| + k, g)
  {
    BlocksOf(ts, g);
    assert |Blocks(ts[..g])| + k < |Blocks(ts[..g + 1])|;
  }

  /** Earlier testsets have earlier definitions. */
  lemma {:induction false} InOrder(ts: seq<Source>, h: nat, g: nat)
    requires h < g < |ts|
    ensures |Blocks(ts[..h])| + ts[h].count < |Blocks(ts[..g])|
  {
    BlocksOf(ts[..g], h);
    assert ts[..g][..h] == ts[..h] && ts[..g][..h + 1] == ts[..h + 1];
  }

  lemma {:induction false} NumeralIsNoTestset(ts: seq<Source>, g: nat, num: nat, k: nat)
    requires g < |ts| && ts[g].name == Decimal(num)
    ensures ts[g].name != TESTS && TestName(ts[g].name, k) != Name(Decimal(num))
  {
    NotANumeral(TESTS, num);
  }

  /** The first definition called `num`, and the testset it belongs to. */
  lemma {:induction false} FirstNumbered(ts: seq<Source>, f: nat, num: nat) returns (i: nat, g: nat)
    requires FirstTestset(ts, TESTS) == Some(f) && 1 <= num <= ts[f].count
    ensures FirstAt(Emitted(ts), Name(Decimal(num))) == Some(i) && i < |Blocks(ts)|
    ensures i <= |Blocks(ts[..f])| + num - 1
    ensures Emitted(ts)[i] == Blocks(ts)[i] && g <= f && In(ts, i, g)
  {
    var defs, name, at := Emitted(ts), Name(Decimal(num)), |Blocks(ts[..f])| + num - 1;
    Placed(ts, f, num - 1);
    assert defs[at] == Blocks(ts)[at] == Def(name, SingleKind);
    i := FirstAt(defs, name).value;
    g := Locate(ts, i);
    if f < g {
      InOrder(ts, f, g);
    }
  }

  lemma {:induction false} DefinedBefore(ts: seq<Source>, g: nat, name: Name) returns (j: nat)
    requires g < |ts| && TestBefore(ts, g, name)
    ensures j < |Blocks(ts[..g])| <= |Blocks(ts)| && Emitted(ts)[j].name == name
  {
    var h, k :| 0 <= h < g && 1 <= k <= ts[h].count && TestName(ts[h].name, k) == name;
    Placed(ts, h, k - 1);
    Placed(ts, g, 0);
    InOrder(ts, h, g);
    j := |Blocks(ts[..h])| + k - 1;
    BlocksAreEmitted(ts, j);
    hide Blocks, Emitted, Decimal, TestName;
  }

  lemma {:induction false} BlocksAreEmitted(ts: seq<Source>, j: nat)
    requires j < |Blocks(ts)|
    ensures j < |Emitted(ts)| && Emitted(ts)[j] == Blocks(ts)[j]
  {
  }

  lemma {:induction false} TestsFirstAreSingle(ts: seq<Source>, f: nat, num: nat)
    requires FirstTestset(ts, TESTS) == Some(f) && TestsFirst(ts, f) && 1 <= num <= ts[f].count
    ensures Config(Emitted(ts), Name(Decimal(num))) == SingleKind
  {
    var i, g := FirstNumbered(ts, f, num);
    hide Blocks, Emitted, Decimal;
    if Emitted(ts)[i].kind != SingleKind {
      assert ts[g].name == Decimal(num);
      NumeralIsNoTestset(ts, g, num, 1);
      assert g < f;
      var j := DefinedBefore(ts, g, Name(Decimal(num)));
      assert false;
    }
  }

  lemma {:induction false} SingleNeedsTestBefore(ts: seq<Source>, f: nat, g: nat, num: nat)
    requires FirstTestset(ts, TESTS) == Some(f) && g < f && 1 <= num <= ts[f].count && ts[g].name == Decimal(num)
    requires Config(Emitted(ts), Name(Decimal(num))) == SingleKind
    ensures TestBefore(ts, g, Name(Decimal(num)))
  {
    var i, h := FirstNumbered(ts, f, num);
    var p := |Blocks(ts[..g])| + ts[g].count;
    Placed(ts, g, ts[g].count);
    assert Emitted(ts)[p] == Blocks(ts)[p] == TestsetDef(ts[g]);
    hide Blocks, Emitted, Decimal;
    assert i < p;
    var k := i - |Blocks(ts[..h])| + 1;
    assert TestName(ts[h].name, k) == Name(Decimal(num)) && k <= ts[h].count;
    NumeralIsNoTestset(ts, g, num, k);
    if g < h {
      InOrder(ts, g, h);
    }
  }

  lemma {:induction false} NumberedAreSingleIff(ts: seq<Source>, f: nat)
    requires FirstTestset(ts, TESTS) == Some(f)
    ensures NumberedAreSingle(Emitted(ts), ts[f].count) <==> TestsFirst(ts, f)
  {
    if TestsFirst(ts, f) {
      forall num: nat | 1 <= num <= ts[f].count ensures Config(Emitted(ts), Name(Decimal(num))) == SingleKind {
        TestsFirstAreSingle(ts, f, num);
      }
    }
    if NumberedAreSingle(Emitted(ts), ts[f].count) {
      forall g, num | 0 <= g < f && 1 <= num <= ts[f].count && ts[g].name == Decimal(num)
        ensures TestBefore(ts, g, Name(Decimal(num)))
      {
        SingleNeedsTestBefore(ts, f, g, num);
      }
    }
  }

  /** What the two added names refer to: the added tests, unless a testset took the name. */
  lemma {:induction false} AddedTest(ts: seq<Source>, name: string)
    requires name == "main" || name == COMPILATION
    ensures FirstTestset(ts, name).None? ==>
              Config(Emitted(ts), Name(name)) ==
              if name == "main" then SyncResultKind(Name(COMPILATION)) else CompilationKind(Name(TESTS))
    ensures FirstTestset(ts, name).Some? ==>
              !Config(Emitted(ts), Name(name)).SyncResultKind? && !Config(Emitted(ts), Name(name)).CompilationKind?
  {
    var defs, m := Emitted(ts), |Blocks(ts)|;
    OnlyTestsetsNamed(ts, name);
    if FirstTestset(ts, name).None? {
      forall j: nat | j < m ensures defs[j].name != Name(name) {
        assert defs[j] == Blocks(ts)[j];
      }
      assert defs[m].name == Name(COMPILATION) && defs[m + 1].name == MAIN;
      assert FirstAt(defs, Name(name)) == Some(if name == "main" then m + 1 else m);
    } else {
      assert ts[FirstTestset(ts, name).value] in ts;
      var j :| 0 <= j < m && Blocks(ts)[j].name.text == name;
      assert defs[j] == Blocks(ts)[j];
      assert FirstAt(defs, Name(name)).value <= j;
      KindInBlocks(ts, FirstAt(defs, Name(name)).value);
    }
  }

  /** What a converted problem is meant to run: compile, then n tests one after the other under the minimum. */
  ghost function Standard(o: Oracle, n: nat): Test {
    SyncResult(Compilation(o.compile([0]), Testset(Min, seq(n, (k: nat) => Single(o.single([0, 0] + [k]))))))
  }

  /** The package is accepted, and its main test runs as meant, with n tests, whatever its scripts do. */
  ghost predicate RunsAsMeant(ts: seq<Source>, n: nat) {
    var s := After(Emitted(ts), Names(Emitted(ts)), EMPTY);
    && s.error.None? && MAIN in s.tests && Inv(Emitted(ts), s)
    && forall o :: Unfold(Emitted(ts), s.nodes, s.tests[MAIN], o, []) == Standard(o, n)
  }

  lemma {:induction false} SingleReferIff(defs: seq<Def>, t: nat, c: Name, o: Oracle, path: seq<nat>)
    requires WellOrdered(defs, |defs|) && t < |defs| && Listed(defs, t, c)
    ensures Refer(defs, t, c, o, path).Single? <==> Config(defs, c) == SingleKind
    ensures Refer(defs, t, c, o, path).Single? ==> Refer(defs, t, c, o, path) == Single(o.single(path))
  {
    var f := FirstAt(defs, c).value;
    assert First(defs, f) && Fits(defs, f);
  }

  /** A testset runs singles only exactly when all names it lists are those of single tests. */
  lemma {:induction false} SinglesIff(defs: seq<Def>, t: nat, b: Builder, n: nat, o: Oracle, path: seq<nat>)
    requires WellOrdered(defs, |defs|) && First(defs, t) && defs[t].kind.TestsetKind? && defs[t].kind.builder == Some(b)
    ensures Meaning(defs, t, o, path) == Testset(b, seq(n, (k: nat) => Single(o.single(path + [k])))) <==>
            n == |defs[t].kind.children| && forall c :: c in defs[t].kind.children ==> Config(defs, c) == SingleKind
  {
    var cs := defs[t].kind.children;
    assert Fits(defs, t);
    var tests := Meaning(defs, t, o, path).children;
    forall k: nat | k < |cs| ensures Config(defs, cs[k]) == SingleKind <==> tests[k] == Single(o.single(path + [k])) {
      var c := cs[k];
      assert c in cs && c in Children(defs[t].kind) && Listed(defs, t, c);
      assert tests[k] == Refer(defs, t, c, o, path + [k]);
      SingleReferIff(defs, t, c, o, path + [k]);
    }
    var meant := seq(n, (k: nat) => Single(o.single(path + [k])));
    hide Meaning, Config, Fits;
    if tests == meant {
      forall c | c in cs ensures Config(defs, c) == SingleKind {
        var k: nat :| k < |cs| && cs[k] == c;
        assert tests[k] == meant[k];
      }
    }
    if n == |cs| && forall c :: c in cs ==> Config(defs, c) == SingleKind {
      forall k: nat | k < n ensures tests[k] == meant[k] {
        assert cs[k] in cs;
      }
      assert tests == meant;
    }
  }

  lemma {:induction false} TestNumbers(defs: seq<Def>, n: nat)
    ensures (forall c :: c in TestNames(TESTS, n) ==> Config(defs, c) == SingleKind) <==> NumberedAreSingle(defs, n)
  {
    var names := TestNames(TESTS, n);
    if forall c :: c in names ==> Config(defs, c) == SingleKind {
      forall num: nat | 1 <= num <= n ensures Config(defs, Name(Decimal(num))) == SingleKind {
        assert names[num - 1] == Name(Decimal(num)) && names[num - 1] in names;
      }
    }
    if NumberedAreSingle(defs, n) {
      forall c | c in names ensures Config(defs, c) == SingleKind {
        var k: nat :| k < n && names[k] == c;
        var num := k + 1;
        assert c == Name(Decimal(num));
      }
    }
  }

  lemma {:induction false} MeaningOfTestset(ts: seq<Source>, f: nat, t: nat, n: nat, o: Oracle)
    requires WellOrdered(Emitted(ts), |Emitted(ts)|)
    requires FirstTestset(ts, TESTS) == Some(f) && FirstAt(Emitted(ts), Name(TESTS)) == Some(t)
    ensures First(Emitted(ts), t)
    ensures Meaning(Emitted(ts), t, o, [0, 0]) == Testset(Min, seq(n, (k: nat) => Single(o.single([0, 0] + [k])))) <==>
            n == ts[f].count && NumberedAreSingle(Emitted(ts), n)
  {
    var defs := Emitted(ts);
    TestsetIsFirst(ts, f);
    SinglesIff(defs, t, Min, n, o, [0, 0]);
    TestNumbers(defs, ts[f].count);
  }

  /** The tests above the testset, when no testset took their names. */
  lemma {:induction false} MeaningOfMain(ts: seq<Source>, o: Oracle)
    requires WellOrdered(Emitted(ts), |Emitted(ts)|)
    requires FirstTestset(ts, "main").None? && FirstTestset(ts, COMPILATION).None?
    ensures var defs := Emitted(ts);
            && FirstAt(defs, MAIN).Some? && FirstAt(defs, Name(TESTS)).Some?
            && First(defs, FirstAt(defs, Name(TESTS)).value)
            && Meaning(defs, FirstAt(defs, MAIN).value, o, []) ==
               SyncResult(Compilation(o.compile([0]), Meaning(defs, FirstAt(defs, Name(TESTS)).value, o, [0, 0])))
  {
    var defs := Emitted(ts);
    AddedTest(ts, "main");
    AddedTest(ts, COMPILATION);
    hide Emitted, FirstTestset;
    var m := FirstAt(defs, MAIN).value;
    assert First(defs, m) && Fits(defs, m) && Name(COMPILATION) in Children(defs[m].kind);
    assert Listed(defs, m, Name(COMPILATION));
    var c := FirstAt(defs, Name(COMPILATION)).value;
    assert First(defs, c) && Fits(defs, c) && Name(TESTS) in Children(defs[c].kind);
    assert Listed(defs, c, Name(TESTS));
    assert [] + [0] == [0] && [0] + [0] == [0, 0];
    assert Meaning(defs, c, o, [0]) == Compilation(o.compile([0]), Refer(defs, c, Name(TESTS), o, [0, 0]));
  }

  /** A main test of another shape, when one did. */
  lemma {:induction false} TakenName(ts: seq<Source>, o: Oracle, n: nat)
    requires WellOrdered(Emitted(ts), |Emitted(ts)|) && FirstAt(Emitted(ts), MAIN).Some?
    requires FirstTestset(ts, "main").Some? || FirstTestset(ts, COMPILATION).Some?
    ensures Meaning(Emitted(ts), FirstAt(Emitted(ts), MAIN).value, o, []) != Standard(o, n)
  {
    var defs := Emitted(ts);
    AddedTest(ts, "main");
    AddedTest(ts, COMPILATION);
    hide Emitted, FirstTestset;
    var m := FirstAt(defs, MAIN).value;
    assert First(defs, m) && Fits(defs, m);
    if defs[m].kind.SyncResultKind? {
      assert Name(COMPILATION) in Children(defs[m].kind);
      assert Listed(defs, m, Name(COMPILATION));
      var c := FirstAt(defs, Name(COMPILATION)).value;
      assert First(defs, c) && Fits(defs, c);
      assert !Meaning(defs, c, o, [] + [0]).Compilation?;
    }
  }

  lemma {:induction false} ConvertedMain(ts: seq<Source>, o: Oracle)
    requires exists t :: t in ts && (t.name == TESTS || t.name == COMPILATION)
    ensures var defs := Emitted(ts);
            var s := After(defs, Names(defs), EMPTY);
            && s.error.None? && MAIN in s.tests && Inv(defs, s) && WellOrdered(defs, |defs|)
            && FirstAt(defs, MAIN).Some?
            && Unfold(defs, s.nodes, s.tests[MAIN], o, []) == Meaning(defs, FirstAt(defs, MAIN).value, o, [])
  {
    var defs := Emitted(ts);
    ConvertedAcceptedIff(ts);
    AcceptedIff(defs);
    assert defs[|Blocks(ts)| + 1].name == MAIN;
    MainAsDescribed(defs, o);
  }

  lemma {:induction false} CleanRunsAsMeant(ts: seq<Source>)
    requires Clean(ts)
    ensures RunsAsMeant(ts, ts[FirstTestset(ts, TESTS).value].count)
  {
    var f := FirstTestset(ts, TESTS).value;
    assert ts[f] in ts;
    NumberedAreSingleIff(ts, f);
    var defs, s := Emitted(ts), After(Emitted(ts), Names(Emitted(ts)), EMPTY);
    ConvertedMain(ts, Oracle(_ => Zeroed(ACCEPTED), _ => Compiled));
    forall o ensures Unfold(defs, s.nodes, s.tests[MAIN], o, []) == Standard(o, ts[f].count) {
      ConvertedMain(ts, o);
      MeaningOfMain(ts, o);
      MeaningOfTestset(ts, f, FirstAt(defs, Name(TESTS)).value, ts[f].count, o);
    }
  }

  lemma {:induction false} MeantIsClean(ts: seq<Source>, n: nat)
    requires RunsAsMeant(ts, n)
    ensures Clean(ts) && n == ts[FirstTestset(ts, TESTS).value].count
  {
    var defs, s := Emitted(ts), After(Emitted(ts), Names(Emitted(ts)), EMPTY);
    var o := Oracle(_ => Zeroed(ACCEPTED), _ => Compiled);
    assert Unfold(defs, s.nodes, s.tests[MAIN], o, []) == Standard(o, n);
    AcceptedIff(defs);
    ConvertedAcceptedIff(ts);
    ConvertedMain(ts, o);
    if FirstTestset(ts, "main").Some? || FirstTestset(ts, COMPILATION).Some? {
      TakenName(ts, o, n);
    } else {
      MeaningOfMain(ts, o);
      assert FirstTestset(ts, TESTS).Some?;
      MeaningOfTestset(ts, FirstTestset(ts, TESTS).value, FirstAt(defs, Name(TESTS)).value, n, o);
      NumberedAreSingleIff(ts, FirstTestset(ts, TESTS).value);
    }
  }

  /**
   * A converted package runs as meant, with some number of tests, exactly when it is clean; the number is that of
   * "tests".
   */
  lemma {:induction false} ConvertedRunsAsMeantIff(ts: seq<Source>, n: nat)
    ensures RunsAsMeant(ts, n) <==> Clean(ts) && n == ts[FirstTestset(ts, TESTS).value].count
  {
    if Clean(ts) {
      CleanRunsAsMeant(ts);
    }
    if RunsAsMeant(ts, n) {
      MeantIsClean(ts, n);
    }
  }

  /** A problem that runs as meant is never short of boxes exactly when it has a test. */
  lemma {:induction false} ConvertedBoxesSufficeIff(n: nat, o: Oracle)
    requires o.compile([0]) != SubmissionMissing
    ensures Run(Standard(o, n), BoxesRequired(Standard(o, n))) != Err(BoxOutOfRange) <==> n > 0
  {
    var children := seq(n, (k: nat) => Single(o.single([0, 0] + [k])));
    var tests := Testset(Min, children);
    assert Plain(tests) && Plain(Compilation(o.compile([0]), tests));
    assert n > 0 ==> children[0] in children && HasLeaf(children[0]);
    assert HasLeaf(Compilation(o.compile([0]), tests)) <==> n > 0;
    SuppliedBoxesSufficeIff(SyncResult(Compilation(o.compile([0]), tests)));
  }

  // ----- Names -----

  /** The number a string of digits stands for. */
  function Value(s: string): nat {
    if s == "" then 0 else 10 * Value(s[..|s| - 1]) + DigitValue(s[|s| - 1])
  }

  function DigitValue(c: char): nat {
    if '0' <= c <= '9' then c as nat - '0' as nat else 0
  }

  lemma {:induction false} DigitIs(d: nat)
    requires d < 10
    ensures DigitValue(Digit(d)) == d && '0' <= Digit(d) <= '9'
  {
  }

  /** The decimal of a number reads back as that number, in digits and without a leading zero. */
  lemma {:induction false} DecimalReads(n: nat)
    ensures Value(Decimal(n)) == n
    ensures forall k :: 0 <= k < |Decimal(n)| ==> '0' <= Decimal(n)[k] <= '9'
    ensures n > 0 ==> Decimal(n)[0] != '0'
    decreases n
  {
    DigitIs(n % 10);
    if n < 10 {
      assert Decimal(n)[..0] == "";
    } else {
      DecimalReads(n / 10);
      assert Decimal(n)[..|Decimal(n)| - 1] == Decimal(n / 10);
    }
  }

  /** The tests of one testset have different names. */
  lemma {:induction false} TestNamesDiffer(testset: string, j: nat, k: nat)
    requires TestName(testset, j) == TestName(testset, k)
    ensures j == k
  {
    DecimalReads(j);
    DecimalReads(k);
    if testset != TESTS {
      var a, b := testset + Decimal(j), testset + Decimal(k);
      assert a[|testset|..] == Decimal(j) && b[|testset|..] == Decimal(k);
    }
  }

  /**
   * Every testset of the package is emitted under "min" with its tests, each named by its number after the testset's
   * name, or by the number alone in "tests", and each defined as a single test before it.
   */
  lemma {:induction false} TestsetEmitted(ts: seq<Source>, g: nat, k: nat)
    requires g < |ts| && k < ts[g].count
    ensures var defs, at := Emitted(ts), |Blocks(ts[..g])|;
            var name := Name((if ts[g].name == "tests" then "" else ts[g].name) + Decimal(k + 1));
            && at + ts[g].count < |defs|
            && defs[at + k] == Def(name, SingleKind)
            && defs[at + ts[g].count].name == Name(ts[g].name)
            && defs[at + ts[g].count].kind.TestsetKind? && defs[at + ts[g].count].kind.builder == Some(Min)
            && |defs[at + ts[g].count].kind.children| == ts[g].count
            && defs[at + ts[g].count].kind.children[k] == name
  {
    Placed(ts, g, k);
    Placed(ts, g, ts[g].count);
    BlocksAreEmitted(ts, |Blocks(ts[..g])| + k);
    BlocksAreEmitted(ts, |Blocks(ts[..g])| + ts[g].count);
    assert "" + Decimal(k + 1) == Decimal(k + 1);
    hide Blocks, Emitted, Decimal;
  }

  /** And last come the compilation test over "tests" and the main test over it. */
  lemma {:induction false} AddedTestsEmitted(ts: seq<Source>)
    ensures var defs := Emitted(ts);
            && |defs| >= 2
            && defs[|defs| - 2] == Def(Name("compilation"), CompilationKind(Name("tests")))
            && defs[|defs| - 1] == Def(Name("main"), SyncResultKind(Name("compilation")))
  {
  }
}

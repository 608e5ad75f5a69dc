/** Building a problem's graph of tests from its configuration, in definition order. */
module ProblemBuilders {
  import opened Prelude
  import opened VerdictBuilders
  import opened TestTrees

  datatype Name = Name(text: string)

  const MAIN := Name("main")

  /** The type attribute of a definition and the tests it refers to; an absent reference reads as the empty name. */
  datatype Kind =
    | SingleKind
    | TestsetKind(builder: Option<Builder>, children: seq<Name>)
    | CompilationKind(child: Name)
    | SyncResultKind(child: Name)
    | UnknownKind

  datatype Def = Def(name: Name, kind: Kind)

  /** A constructed test; the tests it points to are positions in order of construction. */
  datatype Node =
    | SingleNode(name: Name)
    | TestsetNode(name: Name, builder: Builder, tests: seq<nat>)
    | CompilationNode(name: Name, test: nat)
    | SyncResultNode(name: Name, test: nat)

  datatype Error = TestNotFound(missing: Name) | UnknownType | UnknownVerdictBuilder

  datatype State = State(nodes: seq<Node>, tests: map<Name, nat>, error: Option<Error>)

  const EMPTY := State([], map[], None)

  // ----- What the configuration says -----

  function FirstAt(defs: seq<Def>, name: Name): Option<nat> {
    FirstIndex(defs, (d: Def) => d.name == name)
  }

  /** Always the first definition with this name, whichever of them is being built. */
  function Config(defs: seq<Def>, name: Name): Kind {
    match FirstAt(defs, name)
    case Some(i) => defs[i].kind
    case None => UnknownKind
  }

  function Names(defs: seq<Def>): seq<Name> {
    if defs == [] then []
    else
      var front, last := Names(defs[..|defs| - 1]), defs[|defs| - 1].name;
      if last == Name("") then front else front + [last]
  }

  function Children(kind: Kind): seq<Name> {
    match kind
    case TestsetKind(_, cs) => cs
    case CompilationKind(c) => [c]
    case SyncResultKind(c) => [c]
    case SingleKind => []
    case UnknownKind => []
  }

  predicate Known(kind: Kind) {
    !kind.UnknownKind? && (kind.TestsetKind? ==> kind.builder.Some?)
  }

  // ----- Construction -----

  function Lookup(names: seq<Name>, tests: map<Name, nat>): (r: Result<seq<nat>, Error>)
    ensures r.Ok? <==> forall c :: c in names ==> c in tests
    ensures r.Ok? ==>
              && |r.value| == |names|
              && forall k :: 0 <= k < |names| ==> names[k] in tests && r.value[k] == tests[names[k]]
  {
    if names == [] then Ok([])
    else
      var n := |names| - 1;
      assert names == names[..n] + [names[n]];
      match Lookup(names[..n], tests)
      case Err(e) => Err(e)
      case Ok(front) => if names[n] in tests then Ok(front + [tests[names[n]]]) else Err(TestNotFound(names[n]))
  }

  /** The constructor of the test type named by `kind`. */
  function Construct(kind: Kind, name: Name, tests: map<Name, nat>): Result<Node, Error> {
    match kind
    case SingleKind => Ok(SingleNode(name))
    case TestsetKind(None, _) => Err(UnknownVerdictBuilder)
    case TestsetKind(Some(b), cs) =>
      (match Lookup(cs, tests) case Err(e) => Err(e) case Ok(found) => Ok(TestsetNode(name, b, found)))
    case CompilationKind(c) => if c in tests then Ok(CompilationNode(name, tests[c])) else Err(TestNotFound(c))
    case SyncResultKind(c) => if c in tests then Ok(SyncResultNode(name, tests[c])) else Err(TestNotFound(c))
    case UnknownKind => Err(UnknownType)
  }

  function Step(defs: seq<Def>, s: State, name: Name): State {
    if s.error.Some? then s
    else
      match Construct(Config(defs, name), name, s.tests)
      case Err(e) => s.(error := Some(e))
      case Ok(node) => State(s.nodes + [node], s.tests[name := |s.nodes|], None)
  }

  function After(defs: seq<Def>, names: seq<Name>, s: State): State {
    if names == [] then s
    else Step(defs, After(defs, names[..|names| - 1], s), names[|names| - 1])
  }

  lemma {:induction false} AfterSkipsNothing(defs: seq<Def>, names: seq<Name>, i: nat, s: State)
    requires i < |names|
    ensures After(defs, names[..i + 1], s) == Step(defs, After(defs, names[..i], s), names[i])
  {
    assert names[..i + 1][..i] == names[..i];
  }

  lemma {:induction false} ErrorStays(defs: seq<Def>, names: seq<Name>, i: nat, s: State)
    requires i <= |names| && After(defs, names[..i], s).error.Some?
    ensures After(defs, names, s) == After(defs, names[..i], s)
    decreases |names| - i
  {
    if i == |names| {
      assert names[..i] == names;
    } else {
      AfterSkipsNothing(defs, names, i, s);
      ErrorStays(defs, names, i + 1, s);
    }
  }

  method GetAllTestNames(defs: seq<Def>) returns (names: seq<Name>)
    ensures names == Names(defs)
  {
    names := [];
    for i := 0 to |defs|
      invariant names == Names(defs[..i])
    {
      assert defs[..i + 1][..i] == defs[..i];
      if defs[i].name.text != "" {
        names := names + [defs[i].name];
      }
    }
    assert defs[..|defs|] == defs;
  }

  class DefaultProblemBuilder {
    const defs: seq<Def>
    var nodes: seq<Node>
    var tests: map<Name, nat>

    constructor (defs: seq<Def>)
      ensures this.defs == defs && nodes == [] && tests == map[]
    {
      this.defs := defs;
      nodes, tests := [], map[];
    }

    method GetTestByName(name: Name) returns (r: Option<nat>)
      ensures r == if name in tests then Some(tests[name]) else None
    {
      r := if name in tests then Some(tests[name]) else None;
    }

    method LookupTests(names: seq<Name>) returns (r: Result<seq<nat>, Error>)
      ensures r == Lookup(names, tests)
    {
      var found := [];
      for i := 0 to |names|
        invariant Lookup(names[..i], tests) == Ok(found)
      {
        assert names[..i + 1][..i] == names[..i];
        var test := GetTestByName(names[i]);
        if test.None? {
          FirstMissing(names, i, tests);
          return Err(TestNotFound(names[i]));
        }
        found := found + [test.value];
      }
      assert names[..|names|] == names;
      return Ok(found);
    }

    method CreateTest(name: Name) returns (r: Result<Node, Error>)
      ensures r == Construct(Config(defs, name), name, tests)
    {
      var kind := Config(defs, name);
      match kind
      case UnknownKind =>
        r := Err(UnknownType);
      case SingleKind =>
        r := Ok(SingleNode(name));
      case TestsetKind(b, cs) =>
        if b.None? {
          return Err(UnknownVerdictBuilder);
        }
        var found := LookupTests(cs);
        r := if found.Err? then Err(found.error) else Ok(TestsetNode(name, b.value, found.value));
      case CompilationKind(c) =>
        var test := GetTestByName(c);
        r := if test.None? then Err(TestNotFound(c)) else Ok(CompilationNode(name, test.value));
      case SyncResultKind(c) =>
        var test := GetTestByName(c);
        r := if test.None? then Err(TestNotFound(c)) else Ok(SyncResultNode(name, test.value));
    }

    method AddTest(test: Node)
      modifies this
      ensures nodes == old(nodes) + [test]
      ensures tests == old(tests)[test.name := |old(nodes)|]
    {
      tests := tests[test.name := |nodes|];
      nodes := nodes + [test];
    }

    /** An Err is a constructor that threw; the tests added before it stay. */
    method Build() returns (r: Result<Option<nat>, Error>)
      modifies this
      ensures var end := After(defs, Names(defs), State(old(nodes), old(tests), None));
              && State(nodes, tests, if r.Err? then Some(r.error) else None) == end
              && (r.Ok? ==> r.value == if MAIN in tests then Some(tests[MAIN]) else None)
    {
      var names := GetAllTestNames(defs);
      var failure := BuildTests(names);
      if failure.Some? {
        return Err(failure.value);
      }
      var main := GetTestByName(MAIN);
      return Ok(main);
    }

    /** The loop of build(). */
    method BuildTests(names: seq<Name>) returns (failure: Option<Error>)
      modifies this
      ensures State(nodes, tests, failure) == After(defs, names, State(old(nodes), old(tests), None))
    {
      hide Config, Construct;
      ghost var start := State(nodes, tests, None);
      for i := 0 to |names|
        invariant State(nodes, tests, None) == After(defs, names[..i], start)
      {
        AfterSkipsNothing(defs, names, i, start);
        hide After;
        var test := CreateTest(names[i]);
        if test.Err? {
          ErrorStays(defs, names, i + 1, start);
          return Some(test.error);
        }
        NamedAsAsked(Config(defs, names[i]), names[i], tests);
        AddTest(test.value);
      }
      assert names[..|names|] == names;
      return None;
    }
  }

  lemma {:induction false} NamedAsAsked(kind: Kind, name: Name, tests: map<Name, nat>)
    ensures Construct(kind, name, tests).Ok? ==> Construct(kind, name, tests).value.name == name
  {
  }

  lemma {:induction false} FirstMissing(names: seq<Name>, i: nat, tests: map<Name, nat>)
    requires i < |names| && Lookup(names[..i], tests).Ok? && names[i] !in tests
    ensures Lookup(names, tests) == Err(TestNotFound(names[i]))
    decreases |names|
  {
    var n := |names| - 1;
    if i < n {
      assert names[..n][..i] == names[..i];
      FirstMissing(names[..n], i, tests);
    }
  }

  // ----- Every pointer leads to an earlier test -----

  /** The positions a test points to. */
  function Edges(node: Node): seq<nat> {
    match node
    case SingleNode(_) => []
    case TestsetNode(_, _, ts) => ts
    case CompilationNode(_, t) => [t]
    case SyncResultNode(_, t) => [t]
  }

  /** Node `j` was built from the configuration of its name and points only to earlier tests, those it names. */
  ghost predicate Faithful(defs: seq<Def>, nodes: seq<Node>, j: nat)
    requires j < |nodes|
  {
    var kind := Config(defs, nodes[j].name);
    var edges := Edges(nodes[j]);
    && Known(kind)
    && |edges| == |Children(kind)|
    && (forall k :: 0 <= k < |edges| ==> edges[k] < j && nodes[edges[k]].name == Children(kind)[k])
    && match nodes[j]
       case SingleNode(_) => kind.SingleKind?
       case TestsetNode(_, b, _) => kind.TestsetKind? && kind.builder == Some(b)
       case CompilationNode(_, _) => kind.CompilationKind?
       case SyncResultNode(_, _) => kind.SyncResultKind?
  }

  ghost predicate Inv(defs: seq<Def>, s: State) {
    && (forall j :: 0 <= j < |s.nodes| ==> Faithful(defs, s.nodes, j))
    && (forall n :: n in s.tests ==> s.tests[n] < |s.nodes| && s.nodes[s.tests[n]].name == n)
  }

  lemma {:induction false} StepKeepsInv(defs: seq<Def>, s: State, name: Name)
    requires Inv(defs, s)
    ensures Inv(defs, Step(defs, s, name))
  {
    var t := Step(defs, s, name);
    if t.error.None? {
      var n := |s.nodes|;
      forall j | 0 <= j < |t.nodes| ensures Faithful(defs, t.nodes, j) {
        if j < n {
          assert Faithful(defs, s.nodes, j);
          assert t.nodes[j] == s.nodes[j];
        }
      }
    }
  }

  /** Also when a constructor throws: what was built until then points only backwards. */
  lemma {:induction false} EdgesPointBackwards(defs: seq<Def>, names: seq<Name>, s: State)
    requires Inv(defs, s)
    ensures Inv(defs, After(defs, names, s))
    ensures var nodes := After(defs, names, s).nodes;
            forall j, k :: 0 <= j < |nodes| && 0 <= k < |Edges(nodes[j])| ==> Edges(nodes[j])[k] < j
    decreases |names|
  {
    if names != [] {
      EdgesPointBackwards(defs, names[..|names| - 1], s);
      StepKeepsInv(defs, After(defs, names[..|names| - 1], s), names[|names| - 1]);
    }
    var nodes := After(defs, names, s).nodes;
    forall j, k | 0 <= j < |nodes| && 0 <= k < |Edges(nodes[j])| ensures Edges(nodes[j])[k] < j {
      assert Faithful(defs, nodes, j);
    }
  }

  // ----- Which configurations are accepted -----

  /** `c` names one of the first `i` definitions. */
  ghost predicate Listed(defs: seq<Def>, i: nat, c: Name) {
    c != Name("") && exists j :: 0 <= j < i && j < |defs| && defs[j].name == c
  }

  ghost predicate First(defs: seq<Def>, i: nat) {
    i < |defs| && defs[i].name != Name("") && forall j :: 0 <= j < i ==> defs[j].name != defs[i].name
  }

  /** Definition `i` has a known type and refers only to names defined before it. */
  ghost predicate Fits(defs: seq<Def>, i: nat)
    requires i < |defs|
  {
    Known(defs[i].kind) && forall c :: c in Children(defs[i].kind) ==> Listed(defs, i, c)
  }

  ghost predicate WellOrdered(defs: seq<Def>, n: nat) {
    forall i :: 0 <= i < n && First(defs, i) ==> Fits(defs, i)
  }

  lemma {:induction false} ConstructsIff(kind: Kind, name: Name, tests: map<Name, nat>)
    ensures Construct(kind, name, tests).Ok? <==> Known(kind) && forall c :: c in Children(kind) ==> c in tests
    ensures Construct(kind, name, tests).Ok? ==> Construct(kind, name, tests).value.name == name
  {
    assert kind.CompilationKind? || kind.SyncResultKind? ==> kind.child in Children(kind);
  }

  lemma {:induction false} FirstOf(defs: seq<Def>, i: nat) returns (f: nat)
    requires i < |defs| && defs[i].name != Name("")
    ensures f <= i && FirstAt(defs, defs[i].name) == Some(f) && First(defs, f) && defs[f].name == defs[i].name
  {
    f := FirstAt(defs, defs[i].name).value;
  }

  /** One more named definition: the step succeeds exactly when the definition fits, if it is the first of its name. */
  lemma {:induction false} AcceptedStep(defs: seq<Def>, i: nat, before: State)
    requires i < |defs| && defs[i].name != Name("")
    requires before.error.None? && WellOrdered(defs, i)
    requires forall c :: c in before.tests <==> Listed(defs, i, c)
    ensures Step(defs, before, defs[i].name).error.None? <==> First(defs, i) ==> Fits(defs, i)
  {
    var name := defs[i].name;
    var f := FirstOf(defs, i);
    ConstructsIff(defs[f].kind, name, before.tests);
    if f < i {
      assert Fits(defs, f);
      forall c | c in Children(defs[f].kind) ensures Listed(defs, i, c) {
        assert Listed(defs, f, c);
      }
    }
  }

  lemma {:induction false} NextDefinition(defs: seq<Def>, i: nat)
    requires i < |defs|
    ensures After(defs, Names(defs[..i + 1]), EMPTY) ==
            if defs[i].name == Name("") then After(defs, Names(defs[..i]), EMPTY)
            else Step(defs, After(defs, Names(defs[..i]), EMPTY), defs[i].name)
  {
    assert defs[..i + 1][..i] == defs[..i] && defs[..i + 1] != [];
    if defs[i].name != Name("") {
      assert Names(defs[..i + 1])[..|Names(defs[..i + 1])| - 1] == Names(defs[..i]);
    }
  }

  lemma {:induction false} StepLists(defs: seq<Def>, i: nat, before: State)
    requires i < |defs| && defs[i].name != Name("")
    requires Step(defs, before, defs[i].name).error.None?
    requires forall c :: c in before.tests <==> Listed(defs, i, c)
    ensures before.error.None?
    ensures forall c :: c in Step(defs, before, defs[i].name).tests <==> Listed(defs, i + 1, c)
  {
    hide Construct;
    forall c ensures c in Step(defs, before, defs[i].name).tests <==> c in before.tests || c == defs[i].name {
    }
  }

  lemma {:induction false} AcceptedUpTo(defs: seq<Def>, n: nat)
    requires n <= |defs|
    ensures var s := After(defs, Names(defs[..n]), EMPTY);
            && (s.error.None? <==> WellOrdered(defs, n))
            && (s.error.None? ==> forall c :: c in s.tests <==> Listed(defs, n, c))
    decreases n
  {
    if n > 0 {
      var i := n - 1;
      AcceptedUpTo(defs, i);
      NextDefinition(defs, i);
      assert defs[i].name == Name("") ==> !First(defs, i);
      hide After, Names, Config, Construct, First, Fits;
      var before, s := After(defs, Names(defs[..i]), EMPTY), After(defs, Names(defs[..n]), EMPTY);
      assert WellOrdered(defs, n) <==> WellOrdered(defs, i) && (First(defs, i) ==> Fits(defs, i));
      if defs[i].name == Name("") {
        assert forall c :: Listed(defs, n, c) <==> Listed(defs, i, c);
      } else if before.error.None? {
        AcceptedStep(defs, i, before);
        if s.error.None? {
          StepLists(defs, i, before);
        }
      }
    }
  }

  /**
   * A configuration is accepted exactly when the first definition of every name has a known type and refers only
   * to names defined before it; a repeated definition can neither break nor repair it.
   */
  lemma {:induction false} AcceptedIff(defs: seq<Def>)
    ensures var s := After(defs, Names(defs), EMPTY);
            && (s.error.None? <==> WellOrdered(defs, |defs|))
            && (s.error.None? ==> (MAIN in s.tests <==> exists j :: 0 <= j < |defs| && defs[j].name == MAIN))
  {
    AcceptedUpTo(defs, |defs|);
    assert defs[..|defs|] == defs;
    assert (exists j :: 0 <= j < |defs| && defs[j].name == MAIN) <==> Listed(defs, |defs|, MAIN);
  }

  // ----- What is built is what the configuration describes -----

  /** How each run of a test ends, by the path of child positions that leads to it. */
  datatype Oracle = Oracle(single: seq<nat> -> Info, compile: seq<nat> -> Compile)

  /** The tree that running the test at position `i` walks through. */
  ghost function Unfold(defs: seq<Def>, nodes: seq<Node>, i: nat, o: Oracle, path: seq<nat>): Test
    requires i < |nodes| && forall j :: 0 <= j < |nodes| ==> Faithful(defs, nodes, j)
    decreases i
  {
    assert Faithful(defs, nodes, i);
    match nodes[i]
    case SingleNode(_) => Single(o.single(path))
    case TestsetNode(_, b, ts) =>
      assert ts == Edges(nodes[i]);
      Testset(b, seq(|ts|, k requires 0 <= k < |ts| => Unfold(defs, nodes, ts[k], o, path + [k])))
    case CompilationNode(_, t) =>
      assert t == Edges(nodes[i])[0];
      Compilation(o.compile(path), Unfold(defs, nodes, t, o, path + [0]))
    case SyncResultNode(_, t) =>
      assert t == Edges(nodes[i])[0];
      SyncResult(Unfold(defs, nodes, t, o, path + [0]))
  }

  /** The tree that definition `i` describes, every reference read as the first definition of that name. */
  ghost function Meaning(defs: seq<Def>, i: nat, o: Oracle, path: seq<nat>): Test
    requires First(defs, i) && WellOrdered(defs, |defs|)
    decreases i
  {
    assert Fits(defs, i);
    match defs[i].kind
    case SingleKind => Single(o.single(path))
    case TestsetKind(b, cs) =>
      Testset(b.value, seq(|cs|, k requires 0 <= k < |cs| => Refer(defs, i, cs[k], o, path + [k])))
    case CompilationKind(c) =>
      assert c in Children(defs[i].kind);
      Compilation(o.compile(path), Refer(defs, i, c, o, path + [0]))
    case SyncResultKind(c) =>
      assert c in Children(defs[i].kind);
      SyncResult(Refer(defs, i, c, o, path + [0]))
  }

  ghost function Refer(defs: seq<Def>, i: nat, c: Name, o: Oracle, path: seq<nat>): Test
    requires i < |defs| && WellOrdered(defs, |defs|) && Listed(defs, i, c)
    decreases i, 0
  {
    var f := FirstAt(defs, c).value;
    Meaning(defs, f, o, path)
  }

  /** Tests may be shared and defined twice: every object of a name still unfolds to the tree of its definition. */
  lemma {:induction false} BuiltAsDescribed(defs: seq<Def>, nodes: seq<Node>, i: nat, o: Oracle, path: seq<nat>)
    requires WellOrdered(defs, |defs|)
    requires i < |nodes| && forall j :: 0 <= j < |nodes| ==> Faithful(defs, nodes, j)
    requires nodes[i].name != Name("")
    ensures FirstAt(defs, nodes[i].name).Some?
    ensures Unfold(defs, nodes, i, o, path) == Meaning(defs, FirstAt(defs, nodes[i].name).value, o, path)
    decreases i
  {
    assert Faithful(defs, nodes, i);
    var f := FirstAt(defs, nodes[i].name).value;
    var edges, cs := Edges(nodes[i]), Children(defs[f].kind);
    assert First(defs, f);
    assert Fits(defs, f);
    forall k | 0 <= k < |edges|
      ensures Unfold(defs, nodes, edges[k], o, path + [k]) == Refer(defs, f, cs[k], o, path + [k])
    {
      assert cs[k] in cs && Listed(defs, f, cs[k]);
      BuiltAsDescribed(defs, nodes, edges[k], o, path + [k]);
    }
    match nodes[i]
    case SingleNode(_) =>
    case TestsetNode(_, b, ts) =>
      assert Unfold(defs, nodes, i, o, path).children == Meaning(defs, f, o, path).children;
    case CompilationNode(_, t) => assert t == edges[0] && cs == [defs[f].kind.child];
    case SyncResultNode(_, t) => assert t == edges[0] && cs == [defs[f].kind.child];
  }

  /** The main test that build returns runs as the definition of "main" describes. */
  lemma {:induction false} MainAsDescribed(defs: seq<Def>, o: Oracle)
    requires WellOrdered(defs, |defs|) && exists j :: 0 <= j < |defs| && defs[j].name == MAIN
    ensures var s := After(defs, Names(defs), EMPTY);
            && Inv(defs, s) && MAIN in s.tests && FirstAt(defs, MAIN).Some?
            && Unfold(defs, s.nodes, s.tests[MAIN], o, []) == Meaning(defs, FirstAt(defs, MAIN).value, o, [])
  {
    AcceptedIff(defs);
    EdgesPointBackwards(defs, Names(defs), EMPTY);
    var s := After(defs, Names(defs), EMPTY);
    BuiltAsDescribed(defs, s.nodes, s.tests[MAIN], o, []);
  }

  // ----- Errors -----

  /** The test named at `k` is the first that is not built yet. */
  predicate FirstAbsent(names: seq<Name>, tests: map<Name, nat>, k: int) {
    0 <= k < |names| && names[k] !in tests && forall j :: 0 <= j < k ==> names[j] in tests
  }

  /** Which error a constructor throws: for the type, then the verdict builder, then the first child not built yet. */
  lemma {:induction false} ConstructFails(kind: Kind, name: Name, tests: map<Name, nat>)
    ensures kind.UnknownKind? ==> Construct(kind, name, tests) == Err(UnknownType)
    ensures kind.TestsetKind? && kind.builder.None? ==> Construct(kind, name, tests) == Err(UnknownVerdictBuilder)
    ensures forall k :: Known(kind) && FirstAbsent(Children(kind), tests, k) ==>
                          Construct(kind, name, tests) == Err(TestNotFound(Children(kind)[k]))
  {
    if kind.TestsetKind? && kind.builder.Some? {
      forall k | FirstAbsent(kind.children, tests, k)
        ensures Lookup(kind.children, tests) == Err(TestNotFound(kind.children[k]))
      {
        FirstMissing(kind.children, k, tests);
      }
    }
  }

  /** A successful constructor keeps the name, the builder and, in order, the tests its definition names. */
  lemma {:induction false} ConstructKeeps(kind: Kind, name: Name, tests: map<Name, nat>)
    requires Construct(kind, name, tests).Ok?
    ensures var node := Construct(kind, name, tests).value;
            && node.name == name
            && |Edges(node)| == |Children(kind)|
            && (forall k :: 0 <= k < |Edges(node)| ==>
                 Children(kind)[k] in tests && Edges(node)[k] == tests[Children(kind)[k]])
            && (node.SingleNode? <==> kind.SingleKind?) && (node.TestsetNode? <==> kind.TestsetKind?)
            && (node.CompilationNode? <==> kind.CompilationKind?) && (node.SyncResultNode? <==> kind.SyncResultKind?)
            && (node.TestsetNode? ==> kind.builder == Some(node.builder))
  {
  }
}

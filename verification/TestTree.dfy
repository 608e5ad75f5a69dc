/** Running a problem's tree of tests: boxes, early skipping and the verdict that comes out. */
module TestTrees {
  import opened Prelude
  import opened VerdictBuilders

  /** How far CompilationTest::run gets: each script and lookup may fail. */
  datatype Compile = SubmissionMissing | PrepareFails | CompileFails | CheckerCopyFails | CleanupFails | Compiled

  /** A test with the outcome its scripts would have; the shared tests of a problem are unfolded into a tree. */
  datatype Test =
    | Single(outcome: Info)
    | Testset(builder: Builder, children: seq<Test>)
    | Compilation(compile: Compile, child: Test)
    | SyncResult(child: Test)

  /** BoxOutOfRange stands for indexing the boxes vector past its end, which the code does not check. */
  datatype Error = NotEnoughBoxes | BoxOutOfRange | SubmissionNotFound

  function Zeroed(kind: VerdictType): Info {
    Info(kind, 0.0, 0.0, 0.0, 0.0)
  }

  function BoxesRequired(t: Test): nat {
    match t
    case Single(_) => 2
    case Testset(_, ts) => MaxBoxes(ts)
    case Compilation(_, c) => BoxesRequired(c)
    case SyncResult(c) => BoxesRequired(c)
  }

  function MaxBoxes(ts: seq<Test>): (r: nat)
    ensures forall t :: t in ts ==> BoxesRequired(t) <= r
  {
    if ts == [] then 0
    else
      var front, last := MaxBoxes(ts[..|ts| - 1]), BoxesRequired(ts[|ts| - 1]);
      assert ts == ts[..|ts| - 1] + [ts[|ts| - 1]];
      if front < last then last else front
  }

  function Skip(t: Test): Info
    decreases t
  {
    match t
    case Single(_) => Zeroed(SKIPPED)
    case Testset(b, ts) => SkipFrom(b, Start(b), ts)
    case Compilation(_, c) => Skip(c)
    case SyncResult(c) => Skip(c)
  }

  function SkipFrom(b: Builder, current: Info, ts: seq<Test>): Info
    decreases ts
  {
    if ts == [] then current else SkipFrom(b, Add(b, current, Skip(ts[0])), ts[1..])
  }

  /** run() with `boxes` boxes. */
  function Run(t: Test, boxes: nat): Result<Info, Error>
    decreases t
  {
    match t
    case Single(outcome) => if boxes < 2 then Err(BoxOutOfRange) else Ok(outcome)
    case Testset(b, ts) => if boxes < BoxesRequired(t) then Err(NotEnoughBoxes) else RunFrom(b, Start(b), ts, boxes)
    case Compilation(compile, c) =>
      if boxes < BoxesRequired(t) then Err(NotEnoughBoxes)
      else if compile == SubmissionMissing then Err(SubmissionNotFound)
      else if boxes < 2 then Err(BoxOutOfRange)
      else if compile == PrepareFails || compile == CheckerCopyFails then Ok(Zeroed(FAILED))
      else if compile == CompileFails then Ok(Zeroed(COMPILATION_ERROR))
      else
        var r := Run(c, boxes);
        if r.Ok? && compile == CleanupFails then Ok(Zeroed(FAILED)) else r
    case SyncResult(c) => if boxes < BoxesRequired(t) then Err(NotEnoughBoxes) else Run(c, boxes)
  }

  /** The loop of Testset::run: a child is only skipped once the score can no longer change. */
  function RunFrom(b: Builder, current: Info, ts: seq<Test>, boxes: nat): Result<Info, Error>
    decreases ts
  {
    if ts == [] then Ok(current)
    else
      match if CanChange(current) then Run(ts[0], boxes) else Ok(Skip(ts[0]))
      case Err(e) => Err(e)
      case Ok(v) => RunFrom(b, Add(b, current, v), ts[1..], boxes)
  }

  method RequiredBoxes(t: Test) returns (r: nat)
    ensures r == BoxesRequired(t)
    decreases t
  {
    match t
    case Single(_) => r := 2;
    case Testset(_, ts) =>
      r := 0;
      for i := 0 to |ts|
        invariant r == MaxBoxes(ts[..i])
      {
        var n := RequiredBoxes(ts[i]);
        assert ts[..i + 1][..i] == ts[..i];
        r := if r < n then n else r;
      }
      assert ts[..|ts|] == ts;
    case Compilation(_, c) => r := RequiredBoxes(c);
    case SyncResult(c) => r := RequiredBoxes(c);
  }

  method SkipTest(t: Test) returns (v: Info)
    ensures v == Skip(t)
    decreases t
  {
    match t
    case Single(_) => v := Zeroed(SKIPPED);
    case Testset(b, ts) =>
      var builder := new VerdictBuilder(b);
      builder.Clear();
      for i := 0 to |ts|
        invariant SkipFrom(b, builder.current, ts[i..]) == Skip(t)
        invariant fresh(builder)
      {
        var child := SkipTest(ts[i]);
        assert ts[i..][0] == ts[i] && ts[i..][1..] == ts[i + 1..];
        builder.AddVerdict(child);
      }
      v := builder.current;
    case Compilation(_, c) => v := SkipTest(c);
    case SyncResult(c) => v := SkipTest(c);
  }

  method RunTest(t: Test, boxes: seq<string>) returns (r: Result<Info, Error>)
    ensures r == Run(t, |boxes|)
    decreases t
  {
    if !t.Single? {
      var required := RequiredBoxes(t);
      if |boxes| < required {
        return Err(NotEnoughBoxes);
      }
    }
    match t
    case Single(outcome) =>
      r := if |boxes| < 2 then Err(BoxOutOfRange) else Ok(outcome);
    case Testset(b, ts) =>
      r := RunChildren(t, b, ts, boxes);
    case Compilation(compile, c) =>
      if compile == SubmissionMissing {
        return Err(SubmissionNotFound);
      }
      if |boxes| < 2 {
        return Err(BoxOutOfRange);
      }
      if compile == PrepareFails {
        return Ok(Zeroed(FAILED));
      }
      if compile == CompileFails {
        return Ok(Zeroed(COMPILATION_ERROR));
      }
      if compile == CheckerCopyFails {
        return Ok(Zeroed(FAILED));
      }
      r := RunTest(c, boxes);
      if r.Ok? && compile == CleanupFails {
        return Ok(Zeroed(FAILED));
      }
    case SyncResult(c) =>
      r := RunTest(c, boxes);
  }

  method RunChildren(t: Test, b: Builder, ts: seq<Test>, boxes: seq<string>) returns (r: Result<Info, Error>)
    requires t == Testset(b, ts)
    ensures r == RunFrom(b, Start(b), ts, |boxes|)
    decreases t, 0
  {
    var builder := new VerdictBuilder(b);
    builder.Clear();
    for i := 0 to |ts|
      invariant RunFrom(b, builder.current, ts[i..], |boxes|) == RunFrom(b, Start(b), ts, |boxes|)
      invariant fresh(builder) && builder.builder == b
    {
      assert ts[i..][0] == ts[i] && ts[i..][1..] == ts[i + 1..];
      var canChange := builder.CanScoreChange();
      var child: Info;
      if !canChange {
        child := SkipTest(ts[i]);
      } else {
        var result := RunTest(ts[i], boxes);
        if result.Err? {
          return result;
        }
        child := result.value;
      }
      builder.AddVerdict(child);
    }
    r := Ok(builder.current);
  }

  // ----- Skipped verdicts -----

  /** A skipped test never counts as wrong or failed. */
  predicate Mild(v: Info) {
    v.score >= 0.0 && (v.kind.cls == AcceptedT || v.kind.cls == PartialT || v.kind.cls == SkippedT)
  }

  lemma {:induction false} SkipMild(t: Test)
    ensures Mild(Skip(t))
    decreases t
  {
    match t
    case Single(_) =>
    case Testset(b, ts) => SkipFromMild(b, Start(b), ts);
    case Compilation(_, c) => SkipMild(c);
    case SyncResult(c) => SkipMild(c);
  }

  lemma {:induction false} SkipFromMild(b: Builder, current: Info, ts: seq<Test>)
    requires Mild(current)
    ensures Mild(SkipFrom(b, current, ts))
    decreases ts
  {
    if ts != [] {
      SkipMild(ts[0]);
      SkipFromMild(b, Add(b, current, Skip(ts[0])), ts[1..]);
    }
  }

  /** No testset in the tree is empty. */
  predicate Full(t: Test) {
    match t
    case Single(_) => true
    case Testset(_, ts) => ts != [] && forall c :: c in ts ==> Full(c)
    case Compilation(_, c) => Full(c)
    case SyncResult(c) => Full(c)
  }

  lemma {:induction false} SkipScoresZero(t: Test)
    requires Full(t)
    ensures Skip(t).score == 0.0
    decreases t
  {
    match t
    case Single(_) =>
    case Testset(b, ts) =>
      SkipScoresZero(ts[0]);
      SkipMild(ts[0]);
      SkipFromZero(b, Add(b, Start(b), Skip(ts[0])), ts[1..]);
    case Compilation(_, c) => SkipScoresZero(c);
    case SyncResult(c) => SkipScoresZero(c);
  }

  lemma {:induction false} SkipFromZero(b: Builder, current: Info, ts: seq<Test>)
    requires current.score == 0.0 && forall c :: c in ts ==> Full(c)
    ensures SkipFrom(b, current, ts).score == 0.0
    decreases ts
  {
    if ts != [] {
      SkipScoresZero(ts[0]);
      SkipFromZero(b, Add(b, current, Skip(ts[0])), ts[1..]);
    }
  }

  // ----- Boxes -----

  predicate HasLeaf(t: Test) {
    match t
    case Single(_) => true
    case Testset(_, ts) => exists c :: c in ts && HasLeaf(c)
    case Compilation(_, c) => HasLeaf(c)
    case SyncResult(c) => HasLeaf(c)
  }

  /** A tree needs two boxes when it has a leaf and none otherwise. */
  lemma {:induction false} BoxesAreForLeaves(t: Test)
    ensures BoxesRequired(t) == if HasLeaf(t) then 2 else 0
    decreases t
  {
    match t
    case Single(_) =>
    case Testset(_, ts) => MaxBoxesForLeaves(ts);
    case Compilation(_, c) => BoxesAreForLeaves(c);
    case SyncResult(c) => BoxesAreForLeaves(c);
  }

  lemma {:induction false} MaxBoxesForLeaves(ts: seq<Test>)
    ensures MaxBoxes(ts) == if exists c :: c in ts && HasLeaf(c) then 2 else 0
    decreases ts
  {
    if ts != [] {
      var front, last := ts[..|ts| - 1], ts[|ts| - 1];
      assert ts == front + [last];
      BoxesAreForLeaves(last);
      MaxBoxesForLeaves(front);
      assert (exists c :: c in ts && HasLeaf(c)) <==> (exists c :: c in front && HasLeaf(c)) || HasLeaf(last);
    }
  }

  /** With two boxes no call anywhere in the tree runs short of them. */
  lemma {:induction false} TwoBoxesSuffice(t: Test, boxes: nat)
    requires boxes >= 2
    ensures Run(t, boxes).Ok? || Run(t, boxes) == Err(SubmissionNotFound)
    decreases t
  {
    BoxesAreForLeaves(t);
    match t
    case Single(_) =>
    case Testset(b, ts) => ChildrenHaveBoxes(b, Start(b), ts, boxes);
    case Compilation(_, c) => TwoBoxesSuffice(c, boxes);
    case SyncResult(c) => TwoBoxesSuffice(c, boxes);
  }

  lemma {:induction false} ChildrenHaveBoxes(b: Builder, current: Info, ts: seq<Test>, boxes: nat)
    requires boxes >= 2
    ensures RunFrom(b, current, ts, boxes).Ok? || RunFrom(b, current, ts, boxes) == Err(SubmissionNotFound)
    decreases ts
  {
    if ts != [] {
      TwoBoxesSuffice(ts[0], boxes);
      match if CanChange(current) then Run(ts[0], boxes) else Ok(Skip(ts[0]))
      case Err(_) =>
      case Ok(v) => ChildrenHaveBoxes(b, Add(b, current, v), ts[1..], boxes);
    }
  }

  predicate HasCompilation(t: Test) {
    match t
    case Single(_) => false
    case Testset(_, ts) => exists c :: c in ts && HasCompilation(c)
    case Compilation(_, _) => true
    case SyncResult(c) => HasCompilation(c)
  }

  /** Every compilation test has a leaf below it. */
  predicate LeafUnderEach(t: Test) {
    match t
    case Single(_) => true
    case Testset(_, ts) => forall c :: c in ts ==> LeafUnderEach(c)
    case Compilation(_, c) => HasLeaf(c) && LeafUnderEach(c)
    case SyncResult(c) => LeafUnderEach(c)
  }

  /** Only "min" testsets, and every compilation test finds its submission. */
  predicate Plain(t: Test) {
    match t
    case Single(_) => true
    case Testset(b, ts) => b == Min && forall c :: c in ts ==> Plain(c)
    case Compilation(compile, c) => compile != SubmissionMissing && Plain(c)
    case SyncResult(c) => Plain(c)
  }

  /** Without leaves and compilation tests there is nothing to run. */
  lemma {:induction false} NothingToRun(t: Test)
    requires !HasLeaf(t) && !HasCompilation(t)
    ensures Run(t, 0).Ok? && (Plain(t) ==> Run(t, 0).value.score == 100.0)
    decreases t
  {
    BoxesAreForLeaves(t);
    match t
    case Testset(b, ts) => NoChildToRun(b, Start(b), ts);
    case SyncResult(c) => NothingToRun(c);
  }

  lemma {:induction false} NoChildToRun(b: Builder, current: Info, ts: seq<Test>)
    requires forall c :: c in ts ==> !HasLeaf(c) && !HasCompilation(c)
    ensures RunFrom(b, current, ts, 0).Ok?
    ensures b == Min && current.score == 100.0 && (forall c :: c in ts ==> Plain(c)) ==>
              RunFrom(b, current, ts, 0).value.score == 100.0
    decreases ts
  {
    if ts != [] {
      NothingToRun(ts[0]);
      NoChildToRun(b, Add(b, current, if CanChange(current) then Run(ts[0], 0).value else Skip(ts[0])), ts[1..]);
    }
  }

  /** A plain tree without leaves asks for no box and then needs one at its first compilation test. */
  lemma {:induction false} CompilationShortOfBoxes(t: Test)
    requires !HasLeaf(t) && HasCompilation(t) && Plain(t)
    ensures Run(t, 0) == Err(BoxOutOfRange)
    decreases t
  {
    BoxesAreForLeaves(t);
    match t
    case Testset(b, ts) => SomeChildShortOfBoxes(Start(b), ts);
    case Compilation(_, _) =>
    case SyncResult(c) => CompilationShortOfBoxes(c);
  }

  lemma {:induction false} SomeChildShortOfBoxes(current: Info, ts: seq<Test>)
    requires (forall c :: c in ts ==> !HasLeaf(c) && Plain(c)) && (exists c :: c in ts && HasCompilation(c))
    requires current.score == 100.0
    ensures RunFrom(Min, current, ts, 0) == Err(BoxOutOfRange)
    decreases ts
  {
    if HasCompilation(ts[0]) {
      CompilationShortOfBoxes(ts[0]);
    } else {
      NothingToRun(ts[0]);
      SomeChildShortOfBoxes(Add(Min, current, Run(ts[0], 0).value), ts[1..]);
    }
  }

  /** Given the boxes it asks for, a tree with a leaf under each compilation test never runs short of them. */
  lemma {:induction false} SuppliedBoxesSuffice(t: Test)
    requires LeafUnderEach(t)
    ensures Run(t, BoxesRequired(t)).Ok? || Run(t, BoxesRequired(t)) == Err(SubmissionNotFound)
  {
    BoxesAreForLeaves(t);
    if HasLeaf(t) {
      TwoBoxesSuffice(t, 2);
    } else {
      LeaflessHasNoCompilation(t);
      NothingToRun(t);
    }
  }

  lemma {:induction false} LeaflessHasNoCompilation(t: Test)
    requires LeafUnderEach(t) && !HasLeaf(t)
    ensures !HasCompilation(t)
    decreases t
  {
    match t
    case Testset(_, ts) =>
      forall c | c in ts ensures !HasCompilation(c) {
        LeaflessHasNoCompilation(c);
      }
    case Compilation(_, c) => assert false;
    case SyncResult(c) => LeaflessHasNoCompilation(c);
  }

  /** And a plain tree runs short exactly when it has a compilation test and no leaf at all. */
  lemma {:induction false} SuppliedBoxesSufficeIff(t: Test)
    requires Plain(t)
    ensures Run(t, BoxesRequired(t)) != Err(NotEnoughBoxes)
    ensures Run(t, BoxesRequired(t)) != Err(BoxOutOfRange) <==> HasLeaf(t) || !HasCompilation(t)
  {
    BoxesAreForLeaves(t);
    if HasLeaf(t) {
      TwoBoxesSuffice(t, 2);
    } else if HasCompilation(t) {
      CompilationShortOfBoxes(t);
    } else {
      NothingToRun(t);
    }
  }

  // ----- What skipped tests report -----

  /** A skipped single test reports "skipped", without score and resources. */
  lemma {:induction false} SkippedLeaf(outcome: Info)
    ensures var v := Skip(Single(outcome));
            && v.kind.cls == SkippedT && v.kind.shortName == "SK"
            && v.score == 0.0 && v.time == 0.0 && v.memory == 0.0 && v.realTime == 0.0
  {
  }

  predicate AllMin(t: Test) {
    match t
    case Single(_) => true
    case Testset(b, ts) => b == Min && forall c :: c in ts ==> AllMin(c)
    case Compilation(_, c) => AllMin(c)
    case SyncResult(c) => AllMin(c)
  }

  /** Without empty testsets a skipped tree is never accepted; with "min" testsets only it is skipped. */
  lemma {:induction false} SkipKinds(t: Test)
    requires Full(t)
    ensures Skip(t).kind.cls == SkippedT || Skip(t).kind.cls == PartialT
    ensures AllMin(t) ==> Skip(t).kind.cls == SkippedT
    decreases t
  {
    match t
    case Single(_) =>
    case Testset(b, ts) =>
      SkipKinds(ts[0]);
      SkipKindsFrom(b, Add(b, Start(b), Skip(ts[0])), ts[1..]);
    case Compilation(_, c) => SkipKinds(c);
    case SyncResult(c) => SkipKinds(c);
  }

  lemma {:induction false} SkipKindsFrom(b: Builder, current: Info, ts: seq<Test>)
    requires forall c :: c in ts ==> Full(c)
    requires if b == Sum
             then current.kind.cls == PartialT else current.kind.cls == SkippedT || current.kind.cls == PartialT
    ensures b == Sum ==> SkipFrom(b, current, ts).kind.cls == PartialT
    ensures b == Min ==> SkipFrom(b, current, ts).kind.cls == SkippedT || SkipFrom(b, current, ts).kind.cls == PartialT
    ensures b == Min && current.kind.cls == SkippedT && (forall c :: c in ts ==> AllMin(c)) ==>
              SkipFrom(b, current, ts).kind.cls == SkippedT
    decreases ts
  {
    if ts != [] {
      SkipKinds(ts[0]);
      SkipKindsFrom(b, Add(b, current, Skip(ts[0])), ts[1..]);
    }
  }

  /** A skipped "sum" testset is partial. */
  lemma {:induction false} SkippedSumIsPartial(ts: seq<Test>)
    requires Full(Testset(Sum, ts))
    ensures Skip(Testset(Sum, ts)).kind.cls == PartialT
  {
    SkipKinds(ts[0]);
    SkipKindsFrom(Sum, Add(Sum, Start(Sum), Skip(ts[0])), ts[1..]);
  }

  // ----- What running reports -----

  /** A single test reports the outcome of its scripts; the sync-result test what its child reports. */
  lemma {:induction false} RunPassesOn(outcome: Info, child: Test, boxes: nat)
    requires boxes >= 2
    ensures Run(Single(outcome), boxes) == Ok(outcome)
    ensures Run(SyncResult(child), boxes) == Run(child, boxes) && Skip(SyncResult(child)) == Skip(child)
  {
    BoxesAreForLeaves(child);
  }

  /** No score and no resources, with this class and name. */
  predicate Nothing(r: Result<Info, Error>, cls: Class, name: string) {
    r.Ok? && r.value == Info(VerdictType(cls, name), 0.0, 0.0, 0.0, 0.0)
  }

  /** What a compilation test reports for each way it can go. */
  lemma {:induction false} CompilationReports(compile: Compile, child: Test, boxes: nat)
    requires boxes >= 2
    ensures var r := Run(Compilation(compile, child), boxes);
            && (compile == SubmissionMissing ==> r == Err(SubmissionNotFound))
            && (compile == PrepareFails ==> Nothing(r, FailedT, "FAIL"))
            && (compile == CompileFails ==> Nothing(r, WrongT, "CE"))
            && (compile == CheckerCopyFails ==> Nothing(r, FailedT, "FAIL"))
            && (compile == CleanupFails ==>
                  if Run(child, boxes).Ok? then Nothing(r, FailedT, "FAIL") else r == Run(child, boxes))
            && (compile == Compiled ==> r == Run(child, boxes))
    ensures Skip(Compilation(compile, child)) == Skip(child)
  {
    BoxesAreForLeaves(child);
  }

  /** Every test but a single one refuses to start with fewer boxes than it asks for. */
  lemma {:induction false} TooFewBoxes(t: Test, boxes: nat)
    requires boxes < 2 && HasLeaf(t)
    ensures Run(t, boxes) == Err(if t.Single? then BoxOutOfRange else NotEnoughBoxes)
  {
    BoxesAreForLeaves(t);
  }
}
